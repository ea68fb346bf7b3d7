// The object of src/geometry/grid_assignment_object.rs that locates points
// among the domain centres: a regular grid of cells, each listing the
// centres it contains, searched breadth-first from the cell of the point,
// pruning cells whose lower distance bound exceeds the best distance so far.

module GridAssignment {
  import FccGrid
  import Arith
  import opened Wrappers
  import opened McVector

  type Tuple3 = FccGrid.Tuple3

  /** A cell of the grid: the search mark and the centres it contains. */
  datatype GridCell = GridCell(burned: bool, myCenters: seq<nat>)

  /** The initial squared-distance bound of nearest_center. */
  const R2_START: real := 1.0e300

  predicate Distinct(s: seq<nat>)
  {
    forall i, j :: 0 <= i < j < |s| ==> s[i] != s[j]
  }

  lemma DistinctAppend(a: seq<nat>, b: seq<nat>)
    requires Distinct(a) && Distinct(b)
    requires forall x :: x in b ==> x !in a
    ensures Distinct(a + b)
  {
    forall i, j | 0 <= i < j < |a + b|
      ensures (a + b)[i] != (a + b)[j]
    {
      if j >= |a| && i < |a| {
        assert (a + b)[j] in b;
      }
    }
  }

  // ---------------------------------------------------------------------
  // One axis of which_cell_tuple and min_dist2
  // ---------------------------------------------------------------------

  /** floor(v), raised to 0 and capped at n - 1. */
  function AxisCell(v: real, n: nat): (i: nat)
    requires n >= 1
    ensures i < n
  {
    var f := v.Floor;
    var m: nat := if f < 0 then 0 else f;
    if m > n - 1 then n - 1 else m
  }

  /** v lies in slab i of width d starting at lo, where the first and last
      slabs extend without bound. */
  predicate AxisIn(lo: real, d: real, n: nat, v: real, i: nat)
  {
    (i > 0 ==> lo + i as real * d <= v) && (i + 1 < n ==> v < lo + i as real * d + d)
  }

  lemma MulLe(a: real, b: real, d: real)
    requires a <= b && d > 0.0
    ensures a * d <= b * d
  {
    assert (b - a) * d >= 0.0;
  }

  lemma MulLt(a: real, b: real, d: real)
    requires a < b && d > 0.0
    ensures a * d < b * d
  {
    assert (b - a) * d > 0.0;
  }

  lemma SquareLe(a: real, b: real)
    requires 0.0 <= a <= b
    ensures a * a <= b * b
  {
    if a > 0.0 {
      MulLe(a, b, a);
      MulLe(a, b, b);
    } else {
      assert b * b >= 0.0;
    }
  }

  function Abs(x: real): real
  {
    if x >= 0.0 then x else -x
  }

  lemma AxisCellIn(lo: real, d: real, n: nat, v: real)
    requires n >= 1 && d > 0.0
    ensures AxisIn(lo, d, n, v, AxisCell((v - lo) / d, n))
  {
    var f := (v - lo) / d;
    var i := AxisCell(f, n);
    assert f * d == v - lo;
    if i > 0 {
      assert i <= f.Floor;
      MulLe(i as real, f, d);
    }
    if i + 1 < n {
      assert f < i as real + 1.0;
      MulLt(f, i as real + 1.0, d);
      assert (i as real + 1.0) * d == i as real * d + d;
      assert v - lo < i as real * d + d;
    }
  }

  /** The slab containing v is unique. */
  lemma AxisInUnique(lo: real, d: real, n: nat, v: real, i: nat, j: nat)
    requires d > 0.0 && i < n && j < n
    requires AxisIn(lo, d, n, v, i) && AxisIn(lo, d, n, v, j)
    ensures i == j
  {
    if i < j {
      AxisOrdered(lo, d, n, v, i, j);
    } else if j < i {
      AxisOrdered(lo, d, n, v, j, i);
    }
  }

  /** A point in slab i is below every later slab. */
  lemma AxisOrdered(lo: real, d: real, n: nat, v: real, i: nat, j: nat)
    requires d > 0.0 && i < j < n && AxisIn(lo, d, n, v, i)
    ensures !AxisIn(lo, d, n, v, j)
  {
    var a, b := i as real * d, j as real * d;
    MulLe(i as real + 1.0, j as real, d);
    assert (i as real + 1.0) * d == a + d;
    assert v < lo + a + d;
    assert b >= a + d;
  }

  /** abs_diff followed by saturating_sub(1): the number of whole cells
      strictly between positions a and b on one axis. */
  function Gap(a: nat, b: nat): nat
  {
    if a > b then a - b - 1 else if b > a then b - a - 1 else 0
  }

  /** Points in slabs ia and ib are at least Gap(ib, ia) slab widths apart. */
  lemma GapBetween(lo: real, d: real, n: nat, a: real, b: real, ia: nat, ib: nat)
    requires d > 0.0 && ia < n && ib < n
    requires AxisIn(lo, d, n, a, ia) && AxisIn(lo, d, n, b, ib)
    ensures Gap(ib, ia) as real * d <= Abs(b - a)
  {
    var g := Gap(ib, ia);
    if ib > ia + 1 {
      GapWidth(ib, ia, d);
    } else if ia > ib + 1 {
      GapWidth(ia, ib, d);
    } else {
      assert g == 0;
    }
  }

  lemma GapWidth(x: nat, y: nat, d: real)
    requires x > y + 1
    ensures Gap(x, y) as real * d == x as real * d - y as real * d - d
  {
    assert Gap(x, y) as real == x as real - y as real - 1.0;
  }

  lemma AxisGap(lo: real, d: real, n: nat, a: real, b: real)
    requires n >= 1 && d > 0.0
    ensures AxisBound(Gap(AxisCell((b - lo) / d, n), AxisCell((a - lo) / d, n)), d) <= Sq(a - b)
  {
    var ia := AxisCell((a - lo) / d, n);
    var ib := AxisCell((b - lo) / d, n);
    AxisCellIn(lo, d, n, a);
    AxisCellIn(lo, d, n, b);
    GapBetween(lo, d, n, a, b, ia, ib);
    var g := Gap(ib, ia) as real * d;
    assert g >= 0.0 by { MulLe(0.0, Gap(ib, ia) as real, d); }
    assert Abs(b - a) == Abs(a - b);
    SqLe(g, Abs(a - b));
    SqAbs(a - b);
  }

  lemma SqLe(a: real, b: real)
    requires 0.0 <= a <= b
    ensures Sq(a) <= Sq(b)
  {
    SquareLe(a, b);
  }

  lemma SqAbs(x: real)
    ensures Sq(Abs(x)) == Sq(x)
  {
    if x < 0.0 {
      assert (-x) * (-x) == x * x;
    }
  }

  lemma AddLe3(a1: real, a2: real, a3: real, b1: real, b2: real, b3: real)
    requires a1 <= b1 && a2 <= b2 && a3 <= b3
    ensures a1 + a2 + a3 <= b1 + b2 + b3
  {
  }

  /** a - 1, floored at 0. */
  function Dec(a: nat): nat
  {
    if a > 0 then a - 1 else 0
  }

  /** b lies between a and c. */
  predicate Btw(a: nat, b: nat, c: nat)
  {
    (a <= b <= c) || (c <= b <= a)
  }

  /** y lies in the box spanned by s and x. */
  predicate InBox(s: Tuple3, y: Tuple3, x: Tuple3)
  {
    Btw(s.0, y.0, x.0) && Btw(s.1, y.1, x.1) && Btw(s.2, y.2, x.2)
  }

  lemma InBoxTrans(s: Tuple3, y: Tuple3, u: Tuple3, x: Tuple3)
    requires InBox(s, y, u) && InBox(s, u, x)
    ensures InBox(s, y, x)
  {
  }

  /** Manhattan distance between two cell tuples. */
  function Manhattan(a: Tuple3, b: Tuple3): nat
  {
    FccGrid.Dist(a.0, b.0) + FccGrid.Dist(a.1, b.1) + FccGrid.Dist(a.2, b.2)
  }

  /** One face step from t towards s. */
  function StepToward(s: Tuple3, t: Tuple3): Tuple3
    requires s != t
  {
    if t.0 != s.0 then (if t.0 < s.0 then (t.0 + 1, t.1, t.2) else (t.0 - 1, t.1, t.2))
    else if t.1 != s.1 then (if t.1 < s.1 then (t.0, t.1 + 1, t.2) else (t.0, t.1 - 1, t.2))
    else (if t.2 < s.2 then (t.0, t.1, t.2 + 1) else (t.0, t.1, t.2 - 1))
  }

  lemma StepTowardSpec(s: Tuple3, t: Tuple3)
    requires s != t
    ensures var u := StepToward(s, t);
      InBox(s, u, t) && Manhattan(s, u) + 1 == Manhattan(s, t) && Manhattan(u, t) == 1
  {
  }

  /** The squared length of g whole cells of width d. */
  function AxisBound(g: nat, d: real): real
  {
    Sq(g as real * d)
  }

  lemma AxisBoundMono(d: real, gy: nat, gx: nat)
    requires d > 0.0 && gy <= gx
    ensures 0.0 <= AxisBound(gy, d) <= AxisBound(gx, d)
    ensures gy == 0 ==> AxisBound(gy, d) == 0.0
  {
    MulLe(gy as real, gx as real, d);
    MulLe(0.0, gy as real, d);
    SquareLe(gy as real * d, gx as real * d);
  }

  lemma AxisBoundsMono(dx: real, dy: real, dz: real, a1: nat, a2: nat, a3: nat, b1: nat, b2: nat, b3: nat)
    requires dx > 0.0 && dy > 0.0 && dz > 0.0 && a1 <= b1 && a2 <= b2 && a3 <= b3
    ensures AxisBound(a1, dx) + AxisBound(a2, dy) + AxisBound(a3, dz) <=
            AxisBound(b1, dx) + AxisBound(b2, dy) + AxisBound(b3, dz)
  {
    AxisBoundMono(dx, a1, b1);
    AxisBoundMono(dy, a2, b2);
    AxisBoundMono(dz, a3, b3);
    AddLe3(AxisBound(a1, dx), AxisBound(a2, dy), AxisBound(a3, dz),
           AxisBound(b1, dx), AxisBound(b2, dy), AxisBound(b3, dz));
  }

  lemma GapMono(s: nat, y: nat, x: nat)
    requires Btw(s, y, x)
    ensures Gap(y, s) <= Gap(x, s)
  {
  }

  // ---------------------------------------------------------------------
  // Burning cells: the effect of add_tuple_to_queue calls
  // ---------------------------------------------------------------------

  /** The search state add_tuple_to_queue works on. */
  datatype Flood = Flood(grid: seq<GridCell>, queue: seq<nat>, wet: seq<nat>)

  /** add_tuple_to_queue for cell idx: a cell not yet burned is burned and
      appended to the queue and the wet list; a burned one is left alone. */
  function Offer(f: Flood, idx: nat): (h: Flood)
    requires idx < |f.grid|
    ensures |h.grid| == |f.grid|
  {
    if f.grid[idx].burned then f
    else Flood(f.grid[idx := f.grid[idx].(burned := true)], f.queue + [idx], f.wet + [idx])
  }

  /** What state h appended to the queue of state f. */
  function Added(f: Flood, h: Flood): seq<nat>
    requires |f.queue| <= |h.queue|
  {
    h.queue[|f.queue|..]
  }

  /** h is f after offering the cells ids: exactly those are burned in
      addition, the centre lists are kept, and the offered cells that were
      not yet burned are appended, each once, to both the queue and the wet
      list. */
  ghost predicate Burns(f: Flood, h: Flood, ids: seq<nat>)
  {
    |h.grid| == |f.grid| && |f.queue| <= |h.queue| &&
    (forall i :: i in ids ==> i < |f.grid|) &&
    (forall i :: 0 <= i < |f.grid| ==> h.grid[i].myCenters == f.grid[i].myCenters) &&
    (forall i :: 0 <= i < |f.grid| ==> (h.grid[i].burned <==> f.grid[i].burned || i in ids)) &&
    h.queue == f.queue + Added(f, h) && h.wet == f.wet + Added(f, h) &&
    (forall i :: i in Added(f, h) <==> i in ids && i < |f.grid| && !f.grid[i].burned) &&
    Distinct(Added(f, h))
  }

  /** The search bookkeeping: the burned cells are those on the wet list,
      no cell is on it twice, and the queue holds only wet cells. */
  ghost predicate Wet(f: Flood)
  {
    (forall i :: 0 <= i < |f.grid| ==> (f.grid[i].burned <==> i in f.wet)) &&
    (forall i :: i in f.wet ==> i < |f.grid|) &&
    Distinct(f.wet) &&
    (forall q :: q in f.queue ==> q in f.wet)
  }

  lemma BurnsKeepsWet(f: Flood, h: Flood, ids: seq<nat>)
    requires Wet(f) && Burns(f, h, ids)
    ensures Wet(h)
  {
    var x := Added(f, h);
    forall i | i in x
      ensures i !in f.wet
    {
      assert i < |f.grid| && !f.grid[i].burned;
    }
    DistinctAppend(f.wet, x);
  }

  lemma BurnsOffer(f: Flood, idx: nat)
    requires idx < |f.grid|
    ensures Burns(f, Offer(f, idx), [idx])
  {
    var h := Offer(f, idx);
    if f.grid[idx].burned {
      assert Added(f, h) == [];
    } else {
      assert Added(f, h) == [idx];
    }
  }

  lemma BurnsNothing(f: Flood)
    ensures Burns(f, f, [])
  {
    assert Added(f, f) == [];
  }

  lemma BurnsTrans(f: Flood, g: Flood, h: Flood, a: seq<nat>, b: seq<nat>)
    requires Burns(f, g, a) && Burns(g, h, b)
    ensures Burns(f, h, a + b)
  {
    var x, y := Added(f, g), Added(g, h);
    assert h.queue == f.queue + (x + y);
    assert h.wet == f.wet + (x + y);
    assert Added(f, h) == x + y;
    forall i | i in y
      ensures i !in x
    {
      assert i < |g.grid| && !g.grid[i].burned;
    }
    DistinctAppend(x, y);
  }

  /** Burned cells stay burned. */
  lemma BurnedStays(f: Flood, h: Flood, ids: seq<nat>, s: seq<nat>)
    requires Burns(f, h, ids)
    requires forall nb :: nb in s ==> nb < |f.grid| && f.grid[nb].burned
    ensures forall nb :: nb in s ==> nb < |h.grid| && h.grid[nb].burned
  {
  }

  /** The elements of a sequence. */
  function Elems(cs: seq<nat>): (e: set<nat>)
    ensures forall k :: k in e <==> k in cs
  {
    set k | k in cs
  }

  lemma ElemsSnoc(seen: set<nat>, cs: seq<nat>)
    requires cs != []
    ensures seen + Elems(cs) == seen + Elems(cs[..|cs| - 1]) + {cs[|cs| - 1]}
  {
    assert cs == cs[..|cs| - 1] + [cs[|cs| - 1]];
  }

  /** Popping the head of the queue onto the popped cells. */
  lemma PopShift(done: seq<nat>, q: seq<nat>)
    requires q != []
    ensures done + q == (done + [q[0]]) + q[1..]
  {
    assert q == [q[0]] + q[1..];
  }

  /** Popping the head of the queue onto the popped cells and appending
      a to both keeps the wet cells the popped cells followed by the queue. */
  lemma QueueShift(done: seq<nat>, q: seq<nat>, a: seq<nat>)
    requires q != []
    ensures (done + q) + a == (done + [q[0]]) + (q[1..] + a)
  {
    assert q == [q[0]] + q[1..];
  }

  /** Offered cells are burned. */
  lemma OfferedBurned(f: Flood, h: Flood, ids: seq<nat>)
    requires Burns(f, h, ids)
    ensures forall nb :: nb in ids ==> nb < |h.grid| && h.grid[nb].burned
  {
  }

  /** The cells not yet burned. */
  ghost function Unburned(g: seq<GridCell>): set<nat>
  {
    set i | 0 <= i < |g| && !g[i].burned
  }

  /** Offering cells never unburns one, and burns a new one exactly when it
      appends something. */
  lemma UnburnedShrinks(f: Flood, h: Flood, ids: seq<nat>)
    requires Burns(f, h, ids)
    ensures Unburned(h.grid) <= Unburned(f.grid)
    ensures Added(f, h) != [] ==> Unburned(h.grid) < Unburned(f.grid)
    ensures Added(f, h) == [] ==> Unburned(h.grid) == Unburned(f.grid)
  {
    if Added(f, h) != [] {
      var i := Added(f, h)[0];
      assert i in Added(f, h);
      assert i in Unburned(f.grid) && i !in Unburned(h.grid);
    }
  }

  // ---------------------------------------------------------------------
  // The tie rule of the centre scan (see Findings)
  // ---------------------------------------------------------------------

  /** One candidate centre: its index and its squared distance. */
  type Candidate = (nat, real)

  function Min(a: nat, b: nat): nat
  {
    if a <= b then a else b
  }

  /** The scan step as written: the tie branch computes a smaller index
      but discards it, so the first centre found at the best distance stays. */
  function ConsiderAsWritten(best: Option<nat>, r2Min: real, c: Candidate): (Option<nat>, real)
  {
    if c.1 < r2Min then (Some(c.0), c.1) else (best, r2Min)
  }

  /** The scan step with the tie rule the code evidently intends: an equally
      near centre with a smaller index replaces the best one. */
  function Consider(best: Option<nat>, r2Min: real, c: Candidate): (Option<nat>, real)
  {
    if c.1 < r2Min then (Some(c.0), c.1)
    else if c.1 == r2Min && best.Some? then (Some(Min(best.value, c.0)), r2Min)
    else (best, r2Min)
  }

  function ScanAsWritten(cs: seq<Candidate>, best: Option<nat>, r2Min: real): (Option<nat>, real)
    decreases |cs|
  {
    if cs == [] then (best, r2Min)
    else
      var s := ScanAsWritten(cs[..|cs| - 1], best, r2Min);
      ConsiderAsWritten(s.0, s.1, cs[|cs| - 1])
  }

  function Scan(cs: seq<Candidate>, best: Option<nat>, r2Min: real): (Option<nat>, real)
    decreases |cs|
  {
    if cs == [] then (best, r2Min)
    else
      var s := Scan(cs[..|cs| - 1], best, r2Min);
      Consider(s.0, s.1, cs[|cs| - 1])
  }

  /** What a scan from no centre and bound r2 finds: the least squared
      distance below r2 and the smallest index at that distance. */
  ghost predicate LeastNearest(cs: seq<Candidate>, r2: real, res: (Option<nat>, real))
  {
    if forall c :: c in cs ==> c.1 >= r2 then res == (None, r2)
    else
      res.0.Some? && res.1 < r2 && (res.0.value, res.1) in cs &&
      (forall c :: c in cs ==> res.1 <= c.1) &&
      (forall c :: c in cs && c.1 == res.1 ==> res.0.value <= c.0)
  }

  lemma {:induction false} ScanIsLeastNearest(cs: seq<Candidate>, r2: real)
    ensures LeastNearest(cs, r2, Scan(cs, None, r2))
    decreases |cs|
  {
    if cs != [] {
      var init := cs[..|cs| - 1];
      var c := cs[|cs| - 1];
      assert cs == init + [c];
      ScanIsLeastNearest(init, r2);
    }
  }

  /** LeastNearest depends only on which candidates there are. */
  lemma LeastNearestUnique(cs: seq<Candidate>, ds: seq<Candidate>, r2: real,
                           a: (Option<nat>, real), b: (Option<nat>, real))
    requires forall c :: c in cs <==> c in ds
    requires LeastNearest(cs, r2, a) && LeastNearest(ds, r2, b)
    ensures a == b
  {
    if !(forall c :: c in cs ==> c.1 >= r2) {
      assert (b.0.value, b.1) in cs && (a.0.value, a.1) in ds;
    }
  }

  /** With the intended tie rule the result does not depend on the order in
      which centres are met. */
  lemma ScanOrderIndependent(cs: seq<Candidate>, ds: seq<Candidate>, r2: real)
    requires multiset(cs) == multiset(ds)
    ensures Scan(cs, None, r2) == Scan(ds, None, r2)
  {
    ScanIsLeastNearest(cs, r2);
    ScanIsLeastNearest(ds, r2);
    forall c ensures c in cs <==> c in ds
    {
      assert c in cs <==> c in multiset(cs);
      assert c in ds <==> c in multiset(ds);
    }
    LeastNearestUnique(cs, ds, r2, Scan(cs, None, r2), Scan(ds, None, r2));
  }

  /** The code as written depends on the order: two centres at the same
      distance, met as 1 then 0, give 1 instead of 0. */
  lemma AsWrittenTieCounterexample()
    ensures ScanAsWritten([(1, 4.0), (0, 4.0)], None, R2_START) == (Some(1), 4.0)
    ensures ScanAsWritten([(0, 4.0), (1, 4.0)], None, R2_START) == (Some(0), 4.0)
    ensures Scan([(1, 4.0), (0, 4.0)], None, R2_START) == (Some(0), 4.0)
  {
    assert [(1, 4.0), (0, 4.0)][..1] == [(1, 4.0)];
    assert [(0, 4.0), (1, 4.0)][..1] == [(0, 4.0)];
    assert [(1, 4.0)][..0] == [];
    assert [(0, 4.0)][..0] == [];
  }

  // ---------------------------------------------------------------------
  // The object
  // ---------------------------------------------------------------------

  // ---------------------------------------------------------------------
  // The grid shape new derives from the centres
  // ---------------------------------------------------------------------

  /** Component-wise minimum and maximum, f64::min and f64::max on each axis. */
  function LowerOf(a: MCVector, b: MCVector): MCVector
  {
    MCVector(if b.x < a.x then b.x else a.x, if b.y < a.y then b.y else a.y, if b.z < a.z then b.z else a.z)
  }

  function UpperOf(a: MCVector, b: MCVector): MCVector
  {
    MCVector(if b.x > a.x then b.x else a.x, if b.y > a.y then b.y else a.y, if b.z > a.z then b.z else a.z)
  }

  /** The lower corner of the centres' bounding box: on each axis the least
      coordinate of a centre. */
  function LowCorner(cs: seq<MCVector>): (lo: MCVector)
    requires |cs| > 0
    ensures forall k :: 0 <= k < |cs| ==> lo.x <= cs[k].x && lo.y <= cs[k].y && lo.z <= cs[k].z
    ensures exists k :: 0 <= k < |cs| && lo.x == cs[k].x
    ensures exists k :: 0 <= k < |cs| && lo.y == cs[k].y
    ensures exists k :: 0 <= k < |cs| && lo.z == cs[k].z
  {
    if |cs| == 1 then cs[0]
    else
      var rest := cs[..|cs| - 1];
      assert forall k :: 0 <= k < |rest| ==> rest[k] == cs[k];
      LowerOf(LowCorner(rest), cs[|cs| - 1])
  }

  /** The upper corner of the centres' bounding box: on each axis the
      greatest coordinate of a centre. */
  function HighCorner(cs: seq<MCVector>): (hi: MCVector)
    requires |cs| > 0
    ensures forall k :: 0 <= k < |cs| ==> cs[k].x <= hi.x && cs[k].y <= hi.y && cs[k].z <= hi.z
    ensures exists k :: 0 <= k < |cs| && hi.x == cs[k].x
    ensures exists k :: 0 <= k < |cs| && hi.y == cs[k].y
    ensures exists k :: 0 <= k < |cs| && hi.z == cs[k].z
  {
    if |cs| == 1 then cs[0]
    else
      var rest := cs[..|cs| - 1];
      assert forall k :: 0 <= k < |rest| ==> rest[k] == cs[k];
      UpperOf(HighCorner(rest), cs[|cs| - 1])
  }

  /** The loop of new over the centres: starting from the first centre, each
      centre lowers min_coords and raises max_coords axis by axis. */
  method BoundingBox(centers: seq<MCVector>) returns (lo: MCVector, hi: MCVector)
    requires |centers| > 0
    ensures lo == LowCorner(centers) && hi == HighCorner(centers)
  {
    lo, hi := centers[0], centers[0];
    for i := 0 to |centers|
      invariant i == 0 ==> lo == centers[0] && hi == centers[0]
      invariant i > 0 ==> lo == LowCorner(centers[..i]) && hi == HighCorner(centers[..i])
    {
      assert centers[..i + 1][..i] == centers[..i];
      lo := LowerOf(lo, centers[i]);
      hi := UpperOf(hi, centers[i]);
    }
    assert centers[..|centers|] == centers;
  }

  /** The side lengths of the box, each raised to 1 (one.max(max - min)). */
  function Extents(cs: seq<MCVector>): (l: MCVector)
    requires |cs| > 0
    ensures l.x >= 1.0 && l.y >= 1.0 && l.z >= 1.0
    ensures l.x >= HighCorner(cs).x - LowCorner(cs).x && (l.x == 1.0 || l.x == HighCorner(cs).x - LowCorner(cs).x)
    ensures l.y >= HighCorner(cs).y - LowCorner(cs).y && (l.y == 1.0 || l.y == HighCorner(cs).y - LowCorner(cs).y)
    ensures l.z >= HighCorner(cs).z - LowCorner(cs).z && (l.z == 1.0 || l.z == HighCorner(cs).z - LowCorner(cs).z)
  {
    var d := HighCorner(cs).Minus(LowCorner(cs));
    MCVector(if d.x > 1.0 then d.x else 1.0, if d.y > 1.0 then d.y else 1.0, if d.z > 1.0 then d.z else 1.0)
  }

  /** The argument of the cube root in new: the centres per cell volume,
      n / (5 * lx * ly * lz). */
  function CellDensity(n: nat, l: MCVector): real
    requires l.x >= 1.0 && l.y >= 1.0 && l.z >= 1.0
  {
    MulLe(1.0, l.x, l.y);
    MulLe(1.0, l.x * l.y, l.z);
    n as real / (5.0 * l.x * l.y * l.z)
  }

  /** lx / nx: the length of a cell along one axis; n cells of it cover l. */
  function CellLength(l: real, n: nat): (d: real)
    requires l >= 1.0 && n >= 1
    ensures d > 0.0 && d * n as real == l
  {
    l / n as real
  }

  /** one.max((dim * l).floor()): the cells along one axis, at least one. */
  function CellsAlong(dim: real, l: real): (n: nat)
    ensures n >= 1
    ensures n > 1 ==> n as real <= dim * l < n as real + 1.0
    ensures n == 1 ==> dim * l < 2.0
  {
    var f := (dim * l).Floor;
    if f < 1 then 1 else f
  }

  class GridAssignmentObject {
    const nx: nat
    const ny: nat
    const nz: nat
    const dx: real
    const dy: real
    const dz: real
    const corner: MCVector
    const centers: seq<MCVector>
    var grid: seq<GridCell>
    var floodQueue: seq<nat>
    var wetList: seq<nat>

    predicate Dims()
    {
      nx >= 1 && ny >= 1 && nz >= 1 && dx > 0.0 && dy > 0.0 && dz > 0.0
    }

    function Cells(): FccGrid.GlobalFccGrid
    {
      FccGrid.GlobalFccGrid(nx, ny, nz)
    }

    function NumCells(): nat
    {
      nx * ny * nz
    }

    predicate InGrid(t: Tuple3)
    {
      t.0 < nx && t.1 < ny && t.2 < nz
    }

    /** tuple_to_index: the x-fastest numbering of the global FCC grid. */
    function TupleToIndex(t: Tuple3): nat
    {
      t.0 + Arith.Prod(nx, t.1 + Arith.Prod(ny, t.2))
    }

    /** index_to_tuple */
    function IndexToTuple(idx: nat): Tuple3
      requires Dims()
    {
      Cells().CellIdxToTuple(idx)
    }

    /** tuple_to_index is the numbering of the global FCC grid. */
    lemma TupleToIndexIs(t: Tuple3)
      ensures TupleToIndex(t) == Cells().CellTupleToIdx(t)
    {
      Arith.ProdIsMul(ny, t.2);
      Arith.ProdIsMul(nx, t.1 + ny * t.2);
    }

    lemma TupleIndexBound(t: Tuple3)
      requires Dims() && InGrid(t)
      ensures TupleToIndex(t) < NumCells()
    {
      TupleIndexRoundTrip(t);
    }

    lemma TupleIndexRoundTrip(t: Tuple3)
      requires Dims() && InGrid(t)
      ensures TupleToIndex(t) < NumCells()
      ensures IndexToTuple(TupleToIndex(t)) == t
    {
      TupleToIndexIs(t);
      Cells().CellTupleRoundTrip(t);
    }

    lemma IndexTupleRoundTrip(idx: nat)
      requires Dims() && idx < NumCells()
      ensures InGrid(IndexToTuple(idx))
      ensures TupleToIndex(IndexToTuple(idx)) == idx
    {
      TupleToIndexIs(IndexToTuple(idx));
      Cells().CellIdxRoundTrip(idx);
    }

    lemma TupleToIndexInjective()
      requires Dims()
      ensures forall u, v :: InGrid(u) && InGrid(v) && TupleToIndex(u) == TupleToIndex(v) ==> u == v
    {
      forall u, v | InGrid(u) && InGrid(v) && TupleToIndex(u) == TupleToIndex(v)
        ensures u == v
      {
        TupleIndexRoundTrip(u);
        TupleIndexRoundTrip(v);
      }
    }

    /** which_cell_tuple */
    function WhichCellTuple(r: MCVector): (t: Tuple3)
      requires Dims()
      ensures InGrid(t)
    {
      (AxisCell((r.x - corner.x) / dx, nx),
       AxisCell((r.y - corner.y) / dy, ny),
       AxisCell((r.z - corner.z) / dz, nz))
    }

    /** r lies in cell t, the outermost cells extending without bound. */
    predicate CellOf(r: MCVector, t: Tuple3)
    {
      AxisIn(corner.x, dx, nx, r.x, t.0) && AxisIn(corner.y, dy, ny, r.y, t.1) &&
      AxisIn(corner.z, dz, nz, r.z, t.2)
    }

    lemma WhichCellTupleSpec(r: MCVector, t: Tuple3)
      requires Dims() && InGrid(t)
      ensures WhichCellTuple(r) == t <==> CellOf(r, t)
    {
      var w := WhichCellTuple(r);
      AxisCellIn(corner.x, dx, nx, r.x);
      AxisCellIn(corner.y, dy, ny, r.y);
      AxisCellIn(corner.z, dz, nz, r.z);
      if CellOf(r, t) {
        AxisInUnique(corner.x, dx, nx, r.x, w.0, t.0);
        AxisInUnique(corner.y, dy, ny, r.y, w.1, t.1);
        AxisInUnique(corner.z, dz, nz, r.z, w.2, t.2);
      }
    }

    /** which_cell */
    function WhichCell(r: MCVector): (idx: nat)
      requires Dims()
      ensures idx < NumCells()
      ensures IndexToTuple(idx) == WhichCellTuple(r)
    {
      var t := WhichCellTuple(r);
      TupleIndexRoundTrip(t);
      TupleToIndex(t)
    }

    /** min_dist2 */
    function MinDist2(r: MCVector, cellIdx: nat): real
      requires Dims()
    {
      CellBound(WhichCellTuple(r), IndexToTuple(cellIdx))
    }

    /** The body of min_dist2 once both tuples are known: the squared length
        of the whole cells between them on each axis. */
    function CellBound(rIdx: Tuple3, tupleIdx: Tuple3): real
    {
      AxisBound(Gap(tupleIdx.0, rIdx.0), dx) + AxisBound(Gap(tupleIdx.1, rIdx.1), dy) +
      AxisBound(Gap(tupleIdx.2, rIdx.2), dz)
    }

    /** The bound is zero on the cell of r and its neighbours, diagonal ones
        included, and never negative. */
    lemma MinDist2NearZero(r: MCVector, cellIdx: nat)
      requires Dims()
      ensures MinDist2(r, cellIdx) >= 0.0
      ensures var a := WhichCellTuple(r); var b := IndexToTuple(cellIdx);
        FccGrid.Dist(a.0, b.0) <= 1 && FccGrid.Dist(a.1, b.1) <= 1 && FccGrid.Dist(a.2, b.2) <= 1
        ==> MinDist2(r, cellIdx) == 0.0
    {
      CellBoundNearZero(WhichCellTuple(r), IndexToTuple(cellIdx));
    }

    lemma CellBoundNearZero(a: Tuple3, b: Tuple3)
      requires Dims()
      ensures CellBound(a, b) >= 0.0
      ensures FccGrid.Dist(a.0, b.0) <= 1 && FccGrid.Dist(a.1, b.1) <= 1 && FccGrid.Dist(a.2, b.2) <= 1
        ==> CellBound(a, b) == 0.0
    {
      AxisBoundsMono(dx, dy, dz, 0, 0, 0, Gap(b.0, a.0), Gap(b.1, a.1), Gap(b.2, a.2));
      AxisBoundMono(dx, 0, 0);
      AxisBoundMono(dy, 0, 0);
      AxisBoundMono(dz, 0, 0);
    }

    /** min_dist2 is a lower bound of the squared distance from r to any
        point of the cell. */
    lemma MinDist2LowerBound(r: MCVector, p: MCVector)
      requires Dims()
      ensures MinDist2(r, WhichCell(p)) <= Dist2(r, p)
    {
      CellBoundLowerBound(r, p);
    }

    lemma CellBoundLowerBound(r: MCVector, p: MCVector)
      requires Dims()
      ensures CellBound(WhichCellTuple(r), WhichCellTuple(p)) <= Dist2(r, p)
    {
      var s := WhichCellTuple(r);
      var t := WhichCellTuple(p);
      AxisGap(corner.x, dx, nx, r.x, p.x);
      AxisGap(corner.y, dy, ny, r.y, p.y);
      AxisGap(corner.z, dz, nz, r.z, p.z);
      AddLe3(AxisBound(Gap(t.0, s.0), dx), AxisBound(Gap(t.1, s.1), dy), AxisBound(Gap(t.2, s.2), dz),
             Sq(r.x - p.x), Sq(r.y - p.y), Sq(r.z - p.z));
    }

    /** Between the cell of r and a cell x the bound only grows. */
    lemma MinDist2Monotone(r: MCVector, y: nat, x: nat)
      requires Dims()
      requires InBox(WhichCellTuple(r), IndexToTuple(y), IndexToTuple(x))
      ensures MinDist2(r, y) <= MinDist2(r, x)
    {
      CellBoundMonotone(WhichCellTuple(r), IndexToTuple(y), IndexToTuple(x));
    }

    lemma CellBoundMonotone(s: Tuple3, ty: Tuple3, tx: Tuple3)
      requires Dims() && InBox(s, ty, tx)
      ensures CellBound(s, ty) <= CellBound(s, tx)
    {
      GapMono(s.0, ty.0, tx.0);
      GapMono(s.1, ty.1, tx.1);
      GapMono(s.2, ty.2, tx.2);
      AxisBoundsMono(dx, dy, dz, Gap(ty.0, s.0), Gap(ty.1, s.1), Gap(ty.2, s.2),
                     Gap(tx.0, s.0), Gap(tx.1, s.1), Gap(tx.2, s.2));
    }

    /** Whether the cell at t has a face neighbour in direction k, the
        directions numbered in the order +x, -x, +y, -y, +z, -z of
        add_nbrs_to_queue. */
    predicate HasNbr(t: Tuple3, k: nat)
    {
      if k == 0 then t.0 + 1 < nx
      else if k == 1 then t.0 > 0
      else if k == 2 then t.1 + 1 < ny
      else if k == 3 then t.1 > 0
      else if k == 4 then t.2 + 1 < nz
      else t.2 > 0
    }

    /** The face neighbour of t in direction k, when HasNbr(t, k). */
    function Nbr(t: Tuple3, k: nat): Tuple3
    {
      if k == 0 then (t.0 + 1, t.1, t.2)
      else if k == 1 then (Dec(t.0), t.1, t.2)
      else if k == 2 then (t.0, t.1 + 1, t.2)
      else if k == 3 then (t.0, Dec(t.1), t.2)
      else if k == 4 then (t.0, t.1, t.2 + 1)
      else (t.0, t.1, Dec(t.2))
    }

    function NbrTuple(t: Tuple3, k: nat): seq<Tuple3>
    {
      if HasNbr(t, k) then [Nbr(t, k)] else []
    }

    /** The face neighbours add_nbrs_to_queue offers, in its order. */
    function NbrTuples(t: Tuple3): seq<Tuple3>
    {
      NbrTuple(t, 0) + NbrTuple(t, 1) + NbrTuple(t, 2) + NbrTuple(t, 3) + NbrTuple(t, 4) + NbrTuple(t, 5)
    }

    /** The offered tuples are exactly the face neighbours inside the grid,
        at most six. */
    lemma NbrTuplesSpec(t: Tuple3)
      requires InGrid(t)
      ensures |NbrTuples(t)| <= 6
      ensures forall u :: u in NbrTuples(t) <==> InGrid(u) && Manhattan(u, t) == 1
    {
      forall u | u in NbrTuples(t)
        ensures InGrid(u) && Manhattan(u, t) == 1
      {
        var k :| 0 <= k < 6 && u in NbrTuple(t, k);
      }
      forall u | InGrid(u) && Manhattan(u, t) == 1
        ensures u in NbrTuples(t)
      {
        var k := DirOf(t, u);
        assert u in NbrTuple(t, k);
      }
    }

    /** The direction of a face neighbour u of t. */
    function DirOf(t: Tuple3, u: Tuple3): (k: nat)
      requires InGrid(t) && InGrid(u) && Manhattan(u, t) == 1
      ensures k < 6 && HasNbr(t, k) && Nbr(t, k) == u
    {
      if u.0 == t.0 + 1 then 0
      else if u.0 + 1 == t.0 then 1
      else if u.1 == t.1 + 1 then 2
      else if u.1 + 1 == t.1 then 3
      else if u.2 == t.2 + 1 then 4
      else 5
    }

    function NbrPart(t: Tuple3, k: nat): seq<nat>
    {
      if HasNbr(t, k) then [TupleToIndex(Nbr(t, k))] else []
    }

    /** The cells add_nbrs_to_queue offers, in its order. */
    function NbrIndices(cellIdx: nat): seq<nat>
      requires Dims()
    {
      var t := IndexToTuple(cellIdx);
      NbrPart(t, 0) + NbrPart(t, 1) + NbrPart(t, 2) + NbrPart(t, 3) + NbrPart(t, 4) + NbrPart(t, 5)
    }

    /** Each offered cell is the index of an offered tuple. */
    lemma NbrIndexOf(cellIdx: nat, nb: nat) returns (u: Tuple3)
      requires Dims() && nb in NbrIndices(cellIdx)
      ensures u in NbrTuples(IndexToTuple(cellIdx)) && TupleToIndex(u) == nb
    {
      var t := IndexToTuple(cellIdx);
      var k :| 0 <= k < 6 && nb in NbrPart(t, k);
      u := Nbr(t, k);
      assert u in NbrTuple(t, k);
    }

    /** The offered cells are face neighbours inside the grid, at most six. */
    lemma NbrIndicesInGrid(cellIdx: nat)
      requires Dims() && cellIdx < NumCells()
      ensures |NbrIndices(cellIdx)| <= 6
      ensures forall nb: nat :: nb in NbrIndices(cellIdx) ==>
        nb < NumCells() && Manhattan(IndexToTuple(nb), IndexToTuple(cellIdx)) == 1
    {
      var t := IndexToTuple(cellIdx);
      IndexTupleRoundTrip(cellIdx);
      NbrTuplesSpec(t);
      forall nb: nat | nb in NbrIndices(cellIdx)
        ensures nb < NumCells() && Manhattan(IndexToTuple(nb), t) == 1
      {
        var u := NbrIndexOf(cellIdx, nb);
        TupleIndexRoundTrip(u);
      }
    }

    /** Every face neighbour inside the grid is offered. */
    lemma NbrIndicesComplete(cellIdx: nat, u: Tuple3)
      requires Dims() && cellIdx < NumCells() && InGrid(u)
      requires Manhattan(u, IndexToTuple(cellIdx)) == 1
      ensures TupleToIndex(u) in NbrIndices(cellIdx)
    {
      var t := IndexToTuple(cellIdx);
      IndexTupleRoundTrip(cellIdx);
      NbrTuplesSpec(t);
      assert u in NbrTuples(t);
    }

    /** The cells are well formed and each centre is listed in, and only in,
        the cell which_cell gives for it. */
    ghost predicate ShapeOf(g: seq<GridCell>)
    {
      Dims() && |g| == NumCells() &&
      (forall i, k: nat {:trigger k in g[i].myCenters} :: 0 <= i < |g| && k in g[i].myCenters ==> k < |centers| && WhichCell(centers[k]) == i) &&
      (forall k: nat :: k < |centers| ==> k in g[WhichCell(centers[k])].myCenters)
    }

    lemma ShapeKept(g: seq<GridCell>, h: seq<GridCell>)
      requires ShapeOf(g) && |h| == |g|
      requires forall i :: 0 <= i < |g| ==> h[i].myCenters == g[i].myCenters
      ensures ShapeOf(h)
    {
      forall i, k: nat | 0 <= i < |h| && k in h[i].myCenters
        ensures k < |centers| && WhichCell(centers[k]) == i
      {
        assert h[i].myCenters == g[i].myCenters;
        assert k in g[i].myCenters;
        assert k < |centers|;
      }
      forall k: nat | k < |centers|
        ensures k in h[WhichCell(centers[k])].myCenters
      {
        assert k in g[WhichCell(centers[k])].myCenters;
      }
    }


    ghost predicate Valid()
      reads this
    {
      ShapeOf(grid) && Wet(Flood(grid, floodQueue, wetList))
    }

    /** The state between searches. */
    ghost predicate Idle()
      reads this
    {
      floodQueue == [] && wetList == [] && forall i :: 0 <= i < |grid| ==> !grid[i].burned
    }

    /** The centres among the first n whose cell is i, in index order. */
    ghost function Members(n: nat, i: nat): seq<nat>
      requires Dims() && n <= |centers|
    {
      if n == 0 then []
      else Members(n - 1, i) + (if WhichCell(centers[n - 1]) == i then [n - 1] else [])
    }

    lemma {:induction false} MembersSpec(n: nat, i: nat)
      requires Dims() && n <= |centers|
      ensures forall k: nat :: k in Members(n, i) <==> k < n && WhichCell(centers[k]) == i
    {
      if n > 0 {
        MembersSpec(n - 1, i);
      }
    }

    /** new: the corner is the lower corner of the centres' bounding box;
        with l the box's side lengths raised to 1 and dim the cube root of
        the centres per cell volume, each axis has max(1, floor(dim * l))
        cells of length l / cells; then every centre is listed in the cell
        that contains it. The cube root is a parameter. new indexes
        centers[0], so it panics on no centres. */
    constructor (centers: seq<MCVector>, cbrt: real -> real)
      requires |centers| > 0
      ensures this.centers == centers && corner == LowCorner(centers)
      ensures var l := Extents(centers);
        var dim := cbrt(CellDensity(|centers|, l));
        nx == CellsAlong(dim, l.x) && ny == CellsAlong(dim, l.y) && nz == CellsAlong(dim, l.z) &&
        dx == CellLength(l.x, nx) && dy == CellLength(l.y, ny) && dz == CellLength(l.z, nz)
      ensures Valid() && Idle()
      ensures forall i :: 0 <= i < |grid| ==> grid[i].myCenters == Members(|centers|, i)
    {
      var lo, hi := BoundingBox(centers);
      var l := Extents(centers);
      var dim := cbrt(CellDensity(|centers|, l));
      var nx, ny, nz := CellsAlong(dim, l.x), CellsAlong(dim, l.y), CellsAlong(dim, l.z);
      this.nx := nx;
      this.ny := ny;
      this.nz := nz;
      this.dx := CellLength(l.x, nx);
      this.dy := CellLength(l.y, ny);
      this.dz := CellLength(l.z, nz);
      this.corner := lo;
      this.centers := centers;
      assert 0 <= nx * ny * nz by {
        Arith.MulMono(nx, 0, ny);
        Arith.MulMono(nx * ny, 0, nz);
      }
      grid := seq(nx * ny * nz, _ => GridCell(false, []));
      floodQueue := [];
      wetList := [];
      new;
      ListCenters();
    }

    /** The last loop of new: each centre, in order, is pushed onto the list
        of the cell which_cell gives it. */
    method ListCenters()
      requires Dims() && |grid| == NumCells() && floodQueue == [] && wetList == []
      requires forall i :: 0 <= i < |grid| ==> grid[i] == GridCell(false, [])
      modifies this
      ensures Valid() && Idle() && |grid| == old(|grid|)
      ensures forall i :: 0 <= i < |grid| ==> grid[i].myCenters == Members(|centers|, i)
    {
      for centerIdx := 0 to |centers|
        invariant |grid| == NumCells()
        invariant forall i :: 0 <= i < |grid| ==> grid[i] == GridCell(false, Members(centerIdx, i))
        invariant floodQueue == [] && wetList == []
      {
        var cellIdx := WhichCell(centers[centerIdx]);
        grid := grid[cellIdx := grid[cellIdx].(myCenters := grid[cellIdx].myCenters + [centerIdx])];
      }
      forall i | 0 <= i < |grid|
        ensures forall k: nat :: k in grid[i].myCenters <==> k < |centers| && WhichCell(centers[k]) == i
      {
        MembersSpec(|centers|, i);
      }
    }

    /** add_tuple_to_queue */
    method AddTupleToQueue(t: Tuple3)
      requires Dims() && |grid| == NumCells() && InGrid(t)
      modifies this
      ensures Flood(grid, floodQueue, wetList) == OfferAt(old(Flood(grid, floodQueue, wetList)), t)
    {
      TupleIndexRoundTrip(t);
      var idx := TupleToIndex(t);
      if grid[idx].burned {
        return;
      }
      floodQueue := floodQueue + [idx];
      wetList := wetList + [idx];
      grid := grid[idx := grid[idx].(burned := true)];
    }

    /** add_tuple_to_queue for tuple u. */
    function OfferAt(f: Flood, u: Tuple3): (h: Flood)
      requires Dims() && InGrid(u) && |f.grid| == NumCells()
      ensures |h.grid| == |f.grid|
    {
      TupleIndexBound(u);
      Offer(f, TupleToIndex(u))
    }

    /** The offer add_nbrs_to_queue makes in direction k, if any. */
    function OfferStep(f: Flood, t: Tuple3, k: nat): (h: Flood)
      requires Dims() && InGrid(t) && |f.grid| == NumCells()
      ensures |h.grid| == |f.grid|
    {
      if HasNbr(t, k) then OfferAt(f, Nbr(t, k)) else f
    }

    /** The six guarded offers of add_nbrs_to_queue for cell cellIdx. */
    function OfferNbrs(f: Flood, cellIdx: nat): Flood
      requires Dims() && cellIdx < NumCells() && |f.grid| == NumCells()
    {
      IndexTupleRoundTrip(cellIdx);
      var t := IndexToTuple(cellIdx);
      OfferStep(OfferStep(OfferStep(OfferStep(OfferStep(OfferStep(f, t, 0), t, 1), t, 2), t, 3), t, 4), t, 5)
    }

    lemma BurnsStep(f: Flood, g: Flood, a: seq<nat>, t: Tuple3, k: nat)
      requires Dims() && InGrid(t) && |f.grid| == NumCells() && Burns(f, g, a)
      ensures Burns(f, OfferStep(g, t, k), a + NbrPart(t, k))
    {
      if HasNbr(t, k) {
        var u := Nbr(t, k);
        TupleIndexRoundTrip(u);
        BurnsOffer(g, TupleToIndex(u));
        BurnsTrans(f, g, Offer(g, TupleToIndex(u)), a, [TupleToIndex(u)]);
      } else {
        assert a + [] == a;
      }
    }

    /** add_nbrs_to_queue burns exactly the in-grid face neighbours and
        queues those not yet burned. */
    lemma OfferNbrsBurns(f: Flood, cellIdx: nat)
      requires Dims() && cellIdx < NumCells() && |f.grid| == NumCells()
      ensures Burns(f, OfferNbrs(f, cellIdx), NbrIndices(cellIdx))
    {
      var t := IndexToTuple(cellIdx);
      IndexTupleRoundTrip(cellIdx);
      BurnsNothing(f);
      BurnsStep(f, f, [], t, 0);
      assert [] + NbrPart(t, 0) == NbrPart(t, 0);
      var f1 := OfferStep(f, t, 0);
      var a1 := NbrPart(t, 0);
      BurnsStep(f, f1, a1, t, 1);
      var f2 := OfferStep(f1, t, 1);
      var a2 := a1 + NbrPart(t, 1);
      BurnsStep(f, f2, a2, t, 2);
      var f3 := OfferStep(f2, t, 2);
      var a3 := a2 + NbrPart(t, 2);
      BurnsStep(f, f3, a3, t, 3);
      var f4 := OfferStep(f3, t, 3);
      var a4 := a3 + NbrPart(t, 3);
      BurnsStep(f, f4, a4, t, 4);
      var f5 := OfferStep(f4, t, 4);
      var a5 := a4 + NbrPart(t, 4);
      BurnsStep(f, f5, a5, t, 5);
    }

    /** The states between the six guarded offers compose to OfferNbrs. */
    lemma OfferNbrsSteps(f0: Flood, f1: Flood, f2: Flood, f3: Flood, f4: Flood, f5: Flood, f6: Flood,
                         cellIdx: nat, t: Tuple3)
      requires Dims() && cellIdx < NumCells() && t == IndexToTuple(cellIdx) && InGrid(t)
      requires |f0.grid| == NumCells()
      requires f1 == if t.0 + 1 < nx then OfferAt(f0, (t.0 + 1, t.1, t.2)) else f0
      requires f2 == if t.0 > 0 then OfferAt(f1, (t.0 - 1, t.1, t.2)) else f1
      requires f3 == if t.1 + 1 < ny then OfferAt(f2, (t.0, t.1 + 1, t.2)) else f2
      requires f4 == if t.1 > 0 then OfferAt(f3, (t.0, t.1 - 1, t.2)) else f3
      requires f5 == if t.2 + 1 < nz then OfferAt(f4, (t.0, t.1, t.2 + 1)) else f4
      requires f6 == if t.2 > 0 then OfferAt(f5, (t.0, t.1, t.2 - 1)) else f5
      ensures f6 == OfferNbrs(f0, cellIdx)
    {
    }

    /** add_nbrs_to_queue: every in-grid face neighbour is offered to
        add_tuple_to_queue. */
    method AddNbrsToQueue(cellIdx: nat)
      requires Dims() && |grid| == NumCells() && cellIdx < NumCells()
      modifies this
      ensures Flood(grid, floodQueue, wetList) == OfferNbrs(old(Flood(grid, floodQueue, wetList)), cellIdx)
    {
      var tupleIdx := IndexToTuple(cellIdx);
      IndexTupleRoundTrip(cellIdx);
      ghost var f0 := Flood(grid, floodQueue, wetList);
      // on x
      if tupleIdx.0 + 1 < nx {
        var tmp := (tupleIdx.0 + 1, tupleIdx.1, tupleIdx.2);
        AddTupleToQueue(tmp);
      }
      ghost var f1 := Flood(grid, floodQueue, wetList);
      if tupleIdx.0 > 0 {
        var tmp := (tupleIdx.0 - 1, tupleIdx.1, tupleIdx.2);
        AddTupleToQueue(tmp);
      }
      ghost var f2 := Flood(grid, floodQueue, wetList);
      // on y
      if tupleIdx.1 + 1 < ny {
        var tmp := (tupleIdx.0, tupleIdx.1 + 1, tupleIdx.2);
        AddTupleToQueue(tmp);
      }
      ghost var f3 := Flood(grid, floodQueue, wetList);
      if tupleIdx.1 > 0 {
        var tmp := (tupleIdx.0, tupleIdx.1 - 1, tupleIdx.2);
        AddTupleToQueue(tmp);
      }
      ghost var f4 := Flood(grid, floodQueue, wetList);
      // on z
      if tupleIdx.2 + 1 < nz {
        var tmp := (tupleIdx.0, tupleIdx.1, tupleIdx.2 + 1);
        AddTupleToQueue(tmp);
      }
      ghost var f5 := Flood(grid, floodQueue, wetList);
      if tupleIdx.2 > 0 {
        var tmp := (tupleIdx.0, tupleIdx.1, tupleIdx.2 - 1);
        AddTupleToQueue(tmp);
      }
      OfferNbrsSteps(f0, f1, f2, f3, f4, f5, Flood(grid, floodQueue, wetList), cellIdx, tupleIdx);
    }

    /** Centre m is nearest to r, the smallest index winning among equally
        near centres, and nearer than the initial bound. */
    ghost predicate NearestOf(r: MCVector, m: nat)
    {
      m < |centers| && Dist2(r, centers[m]) < R2_START &&
      forall k :: 0 <= k < |centers| ==>
        Dist2(r, centers[m]) < Dist2(r, centers[k]) ||
        (Dist2(r, centers[m]) == Dist2(r, centers[k]) && m <= k)
    }

    /** The squared distances from r to the centres, in centre order. */
    ghost function DistancesTo(r: MCVector): seq<real>
    {
      seq(|centers|, k requires 0 <= k < |centers| => Dist2(r, centers[k]))
    }

    /** The scan state of nearest_center after the centres in seen, d being
        the squared distances of the centres: none is nearer than r2Min, the
        best is the smallest index at r2Min, and no best means the initial
        bound. */
    ghost predicate BestSoFar(d: seq<real>, seen: set<nat>, best: Option<nat>, r2Min: real)
    {
      (forall k :: k in seen ==>
        k < |d| && d[k] >= r2Min && (d[k] == r2Min && best.Some? ==> best.value <= k)) &&
      (best.Some? ==> best.value < |d| && d[best.value] == r2Min && r2Min < R2_START) &&
      (best.None? ==> r2Min == R2_START)
    }

    /** At most one centre is nearest. */
    lemma NearestOfUnique(r: MCVector, m: nat, n: nat)
      requires NearestOf(r, m) && NearestOf(r, n)
      ensures m == n
    {
      assert Dist2(r, centers[m]) <= Dist2(r, centers[n]);
      assert Dist2(r, centers[n]) <= Dist2(r, centers[m]);
    }

    /** The flood fill from the cell of r has stopped: its cell is burned,
        every burned cell was examined or pruned, and the face neighbours
        of every examined cell are burned. */
    ghost predicate Stopped(g: seq<GridCell>, examined: set<nat>, pruned: set<nat>, r: MCVector)
    {
      Dims() && |g| == NumCells() &&
      g[WhichCell(r)].burned &&
      (forall i :: 0 <= i < |g| && g[i].burned ==> i in examined || i in pruned) &&
      Covered(g, examined)
    }

    /** When the flood fill has stopped, every cell x was examined or lies
        beyond a pruned cell on the way from the cell of r. */
    lemma Reach(g: seq<GridCell>, examined: set<nat>, pruned: set<nat>, r: MCVector, x: nat)
      requires Stopped(g, examined, pruned, r) && x < NumCells()
      ensures x in examined ||
        exists y :: y in pruned && InBox(WhichCellTuple(r), IndexToTuple(y), IndexToTuple(x))
      decreases Manhattan(WhichCellTuple(r), IndexToTuple(x))
    {
      var s := WhichCellTuple(r);
      var tx := IndexToTuple(x);
      IndexTupleRoundTrip(x);
      if x !in examined {
        if tx == s {
          assert x == WhichCell(r);
          assert InBox(s, IndexToTuple(x), tx);
        } else {
          var u := StepToward(s, tx);
          StepTowardSpec(s, tx);
          TupleIndexRoundTrip(u);
          var ux := TupleToIndex(u);
          Reach(g, examined, pruned, r, ux);
          if ux in examined {
            NbrIndicesComplete(ux, tx);
            assert x in NbrIndices(ux);
            assert InBox(s, IndexToTuple(x), tx);
          } else {
            var y :| y in pruned && InBox(s, IndexToTuple(y), u);
            InBoxTrans(s, IndexToTuple(y), u, tx);
          }
        }
      }
    }

    /** The search invariants, once the queue is empty, make the best
        centre found the nearest one. */
    lemma Conclude(g: seq<GridCell>, g0: seq<GridCell>, examined: set<nat>, pruned: set<nat>,
                   seen: set<nat>, r: MCVector, best: Option<nat>, r2Min: real)
      requires ShapeOf(g0) && Stopped(g, examined, pruned, r)
      requires forall i, k :: i in examined && k in g0[i].myCenters ==> k in seen
      requires forall i :: i in pruned ==> MinDist2(r, i) > r2Min
      requires BestSoFar(DistancesTo(r), seen, best, r2Min)
      ensures best.Some? ==> NearestOf(r, best.value)
      ensures best.None? <==> forall k :: 0 <= k < |centers| ==> Dist2(r, centers[k]) >= R2_START
    {
      forall k | 0 <= k < |centers|
        ensures Dist2(r, centers[k]) >= r2Min
        ensures Dist2(r, centers[k]) == r2Min && best.Some? ==> best.value <= k
      {
        assert DistancesTo(r)[k] == Dist2(r, centers[k]);
        var x := WhichCell(centers[k]);
        assert k in g0[x].myCenters;
        Reach(g, examined, pruned, r, x);
        if x !in examined {
          var y :| y in pruned && InBox(WhichCellTuple(r), IndexToTuple(y), IndexToTuple(x));
          MinDist2Monotone(r, y, x);
          MinDist2LowerBound(r, centers[k]);
        }
      }
      if best.Some? {
        assert DistancesTo(r)[best.value] == Dist2(r, centers[best.value]);
      }
    }

    /** Offering cells keeps the object valid. */
    lemma BurnsKeepsValid(f: Flood, h: Flood, ids: seq<nat>)
      requires ShapeOf(f.grid) && Wet(f) && Burns(f, h, ids)
      ensures ShapeOf(h.grid) && Wet(h)
    {
      ShapeKept(f.grid, h.grid);
      BurnsKeepsWet(f, h, ids);
    }

    /** The candidates met when scanning the centre list cs, d being the
        squared distances of the centres. */
    function CandidatesOf(d: seq<real>, cs: seq<nat>): (ds: seq<Candidate>)
      requires forall j :: 0 <= j < |cs| ==> cs[j] < |d|
      ensures |ds| == |cs|
      ensures forall j :: 0 <= j < |cs| ==> ds[j] == (cs[j], d[cs[j]])
    {
      seq(|cs|, j requires 0 <= j < |cs| => (cs[j], d[cs[j]]))
    }

    /** Considering one more centre keeps the scan state. */
    lemma ConsiderKeeps(d: seq<real>, seen: set<nat>, best: Option<nat>, r2Min: real, k: nat)
      requires k < |d| && BestSoFar(d, seen, best, r2Min)
      ensures var s := Consider(best, r2Min, (k, d[k]));
              BestSoFar(d, seen + {k}, s.0, s.1) && s.1 <= r2Min
    {
    }

    /** Scanning the centres of one cell keeps the scan state, with those
        centres seen, and never raises the best distance. */
    lemma {:induction false} ScanKeeps(d: seq<real>, seen: set<nat>, cs: seq<nat>, best: Option<nat>, r2Min: real)
      requires forall j :: 0 <= j < |cs| ==> cs[j] < |d|
      requires BestSoFar(d, seen, best, r2Min)
      ensures var s := Scan(CandidatesOf(d, cs), best, r2Min);
              BestSoFar(d, seen + Elems(cs), s.0, s.1) && s.1 <= r2Min
      decreases |cs|
    {
      if cs != [] {
        var init := cs[..|cs| - 1];
        var k := cs[|cs| - 1];
        var ds := CandidatesOf(d, cs);
        assert ds[..|ds| - 1] == CandidatesOf(d, init);
        assert ds[|ds| - 1] == (k, d[k]);
        ScanKeeps(d, seen, init, best, r2Min);
        var s0 := Scan(CandidatesOf(d, init), best, r2Min);
        var s1 := Consider(s0.0, s0.1, (k, d[k]));
        assert Scan(ds, best, r2Min) == s1;
        ConsiderKeeps(d, seen + Elems(init), s0.0, s0.1, k);
        ElemsSnoc(seen, cs);
      }
    }

    /** The loop of nearest_center over the centres of one cell. */
    method ScanCell(rr: MCVector, cs: seq<nat>, best: Option<nat>, r2Min: real)
      returns (best': Option<nat>, r2Min': real)
      requires forall j :: 0 <= j < |cs| ==> cs[j] < |centers|
      ensures (best', r2Min') == Scan(CandidatesOf(DistancesTo(rr), cs), best, r2Min)
    {
      best', r2Min' := best, r2Min;
      for j := 0 to |cs|
        invariant (best', r2Min') == Scan(CandidatesOf(DistancesTo(rr), cs[..j]), best, r2Min)
      {
        var centerIdx := cs[j];
        var centerR := centers[centerIdx];
        var r2 := Dist2(rr, centerR);
        assert CandidatesOf(DistancesTo(rr), cs[..j + 1])[..j] == CandidatesOf(DistancesTo(rr), cs[..j]);
        var res := Consider(best', r2Min', (centerIdx, r2));
        best', r2Min' := res.0, res.1;
      }
      assert cs[..|cs|] == cs;
    }

    /** The flood part of the search invariant: the centres of the cells
        are those of g0, the start cell is burned and the wet cells are the
        popped cells followed by the queue. */
    ghost predicate FloodOk(f: Flood, g0: seq<GridCell>, done: seq<nat>, start: nat)
    {
      ShapeOf(g0) && Wet(f) &&
      |f.grid| == |g0| && (forall i :: 0 <= i < |f.grid| ==> f.grid[i].myCenters == g0[i].myCenters) &&
      start < |f.grid| && f.grid[start].burned &&
      f.wet == done + f.queue
    }

    /** Every examined cell lies in the grid and its neighbours are burned. */
    ghost predicate Covered(g: seq<GridCell>, examined: set<nat>)
      requires Dims()
    {
      forall i :: i in examined ==> i < NumCells() && NbrsBurned(g, i)
    }

    /** The neighbours of cell i are burned. */
    ghost predicate NbrsBurned(g: seq<GridCell>, i: nat)
      requires Dims()
    {
      forall nb :: nb in NbrIndices(i) ==> nb < |g| && g[nb].burned
    }

    /** The invariant of the search loop of nearest_center: besides the
        flood part, every popped cell was examined or pruned, the centres
        of every examined cell were seen, and every pruned cell is farther
        than the best distance. */
    ghost predicate Searching(f: Flood, g0: seq<GridCell>, done: seq<nat>, examined: set<nat>,
                              pruned: set<nat>, seen: set<nat>, r: MCVector, best: Option<nat>, r2Min: real)
    {
      Dims() && FloodOk(f, g0, done, WhichCell(r)) &&
      (forall i :: i in done ==> i in examined || i in pruned) &&
      Covered(f.grid, examined) &&
      (forall i, k :: i in examined && k in g0[i].myCenters ==> k in seen) &&
      (forall i :: i in pruned ==> MinDist2(r, i) > r2Min) &&
      BestSoFar(DistancesTo(r), seen, best, r2Min)
    }

    /** Offering the cell of r to an idle grid starts the search. */
    lemma SearchStart(f: Flood, r: MCVector)
      requires ShapeOf(f.grid) && Wet(f) && f.queue == [] && f.wet == []
      ensures Searching(OfferAt(f, WhichCellTuple(r)), f.grid, [], {}, {}, {}, r, None, R2_START)
    {
      var h := OfferAt(f, WhichCellTuple(r));
      TupleIndexRoundTrip(WhichCellTuple(r));
      BurnsOffer(f, WhichCell(r));
      BurnsKeepsValid(f, h, [WhichCell(r)]);
    }

    /** The first queued cell lies in the grid and its centres are centre
        indices. */
    lemma SearchHead(f: Flood, g0: seq<GridCell>, done: seq<nat>, start: nat)
      requires FloodOk(f, g0, done, start) && f.queue != []
      ensures Dims() && |f.grid| == NumCells() && f.queue[0] < NumCells()
      ensures forall j :: 0 <= j < |f.grid[f.queue[0]].myCenters| ==> f.grid[f.queue[0]].myCenters[j] < |centers|
    {
      var q := f.queue[0];
      assert q in f.wet;
      forall j | 0 <= j < |f.grid[q].myCenters|
        ensures f.grid[q].myCenters[j] < |centers|
      {
        assert f.grid[q].myCenters[j] in g0[q].myCenters;
      }
    }

    /** Popping a cell that is farther than the best distance prunes it. */
    lemma SearchPrune(f: Flood, g0: seq<GridCell>, done: seq<nat>, examined: set<nat>,
                      pruned: set<nat>, seen: set<nat>, r: MCVector, best: Option<nat>, r2Min: real)
      requires Searching(f, g0, done, examined, pruned, seen, r, best, r2Min) && f.queue != []
      requires MinDist2(r, f.queue[0]) > r2Min
      ensures Searching(f.(queue := f.queue[1..]), g0, done + [f.queue[0]], examined,
                        pruned + {f.queue[0]}, seen, r, best, r2Min)
    {
      PopShift(done, f.queue);
    }

    /** Popping a cell and offering its neighbours keeps the flood part.
        The fill then burns a fresh cell or the queue gets shorter. */
    lemma ExamineFlood(f: Flood, f1: Flood, h: Flood, g0: seq<GridCell>, done: seq<nat>, start: nat, ids: seq<nat>)
      requires FloodOk(f, g0, done, start) && f.queue != []
      requires f1.grid == f.grid && f1.queue == f.queue[1..] && f1.wet == f.wet
      requires Burns(f1, h, ids)
      ensures FloodOk(h, g0, done + [f.queue[0]], start)
      ensures Unburned(h.grid) < Unburned(f.grid) ||
              (Unburned(h.grid) == Unburned(f.grid) && |h.queue| < |f.queue|)
    {
      BurnsKeepsWet(f1, h, ids);
      UnburnedShrinks(f1, h, ids);
      QueueShift(done, f.queue, Added(f1, h));
    }

    /** Offering the neighbours of a cell covers it. */
    lemma ExamineCovered(f: Flood, h: Flood, examined: set<nat>, c: nat)
      requires Dims() && c < NumCells() && Covered(f.grid, examined)
      requires Burns(f, h, NbrIndices(c))
      ensures Covered(h.grid, examined + {c})
    {
      forall i | i in examined
        ensures NbrsBurned(h.grid, i)
      {
        BurnedStays(f, h, NbrIndices(c), NbrIndices(i));
      }
      OfferedBurned(f, h, NbrIndices(c));
    }

    /** Seeing all centres of cell c while the best distance can only
        shrink keeps the record of popped, examined and pruned cells. */
    lemma ExamineRecord(g0: seq<GridCell>, done: seq<nat>, examined: set<nat>, pruned: set<nat>,
                        seen: set<nat>, r: MCVector, r2Min: real, seen': set<nat>, r2Min': real, c: nat)
      requires Dims()
      requires forall i :: i in done ==> i in examined || i in pruned
      requires forall i :: i in examined ==> i < |g0|
      requires forall i, k :: i in examined && k in g0[i].myCenters ==> k in seen
      requires forall i :: i in pruned ==> MinDist2(r, i) > r2Min
      requires c < |g0| && seen <= seen' && r2Min' <= r2Min
      requires forall k :: k in g0[c].myCenters ==> k in seen'
      ensures forall i :: i in done + [c] ==> i in examined + {c} || i in pruned
      ensures forall i, k :: i in examined + {c} && k in g0[i].myCenters ==> k in seen'
      ensures forall i :: i in pruned ==> MinDist2(r, i) > r2Min'
    {
    }

    /** Popping a cell, seeing all of its centres while the best distance
        can only shrink, and offering its neighbours examines it. */
    lemma SearchExamine(f: Flood, f1: Flood, h: Flood, g0: seq<GridCell>, done: seq<nat>, examined: set<nat>,
                        pruned: set<nat>, seen: set<nat>, r: MCVector, best: Option<nat>, r2Min: real,
                        seen': set<nat>, best': Option<nat>, r2Min': real)
      requires Searching(f, g0, done, examined, pruned, seen, r, best, r2Min) && f.queue != []
      requires f.queue[0] < NumCells()
      requires seen <= seen' && r2Min' <= r2Min && BestSoFar(DistancesTo(r), seen', best', r2Min')
      requires forall k :: k in f.grid[f.queue[0]].myCenters ==> k in seen'
      requires f1.grid == f.grid && f1.queue == f.queue[1..] && f1.wet == f.wet
      requires Burns(f1, h, NbrIndices(f.queue[0]))
      ensures Searching(h, g0, done + [f.queue[0]], examined + {f.queue[0]}, pruned, seen', r, best', r2Min')
      ensures Unburned(h.grid) < Unburned(f.grid) ||
              (Unburned(h.grid) == Unburned(f.grid) && |h.queue| < |f.queue|)
    {
      var c := f.queue[0];
      ExamineFlood(f, f1, h, g0, done, WhichCell(r), NbrIndices(c));
      ExamineCovered(f1, h, examined, c);
      ExamineRecord(g0, done, examined, pruned, seen, r, r2Min, seen', r2Min', c);
    }

    /** Once the queue is empty, the search has found the nearest centre,
        and the flood state is still valid. */
    lemma SearchEnd(f: Flood, g0: seq<GridCell>, done: seq<nat>, examined: set<nat>,
                    pruned: set<nat>, seen: set<nat>, r: MCVector, best: Option<nat>, r2Min: real)
      requires Searching(f, g0, done, examined, pruned, seen, r, best, r2Min) && f.queue == []
      ensures ShapeOf(f.grid) && Wet(f)
      ensures best.Some? ==> NearestOf(r, best.value)
      ensures best.None? <==> forall k :: 0 <= k < |centers| ==> Dist2(r, centers[k]) >= R2_START
    {
      assert done == f.wet;
      ShapeKept(g0, f.grid);
      Conclude(f.grid, g0, examined, pruned, seen, r, best, r2Min);
    }

    /** Clearing the first wet cell keeps the flood state valid. */
    lemma DryHead(f: Flood)
      requires ShapeOf(f.grid) && Wet(f) && f.queue == [] && f.wet != []
      ensures var i := f.wet[0];
              i < |f.grid| &&
              ShapeOf(f.grid[i := f.grid[i].(burned := false)]) &&
              Wet(Flood(f.grid[i := f.grid[i].(burned := false)], [], f.wet[1..]))
    {
      var i := f.wet[0];
      assert i in f.wet;
      var g := f.grid[i := f.grid[i].(burned := false)];
      var w := f.wet[1..];
      ShapeKept(f.grid, g);
      assert f.wet == [i] + w;
      forall j | 0 <= j < |g|
        ensures g[j].burned <==> j in w
      {
        if j in w {
          var n :| 0 <= n < |w| && w[n] == j;
          assert f.wet[n + 1] == j;
        }
      }
      assert Distinct(w) by {
        forall a, b | 0 <= a < b < |w| ensures w[a] != w[b] {
          assert w[a] == f.wet[a + 1] && w[b] == f.wet[b + 1];
        }
      }
      assert forall j :: j in w ==> j < |g| by {
        forall j | j in w ensures j < |g| { assert j in f.wet; }
      }
    }

    /** The wet-list loop at the end of nearest_center: every cell it
        clears is unburned afterwards and nothing else changes. */
    method ClearWet()
      requires Valid() && floodQueue == []
      modifies this
      ensures Valid() && Idle()
      ensures |grid| == |old(grid)| && forall i :: 0 <= i < |grid| ==> grid[i] == old(grid[i]).(burned := false)
    {
      while wetList != []
        invariant Valid() && floodQueue == []
        invariant |grid| == |old(grid)| &&
                  forall i :: 0 <= i < |grid| ==> grid[i].myCenters == old(grid[i]).myCenters
        decreases |wetList|
      {
        DryHead(Flood(grid, floodQueue, wetList));
        var i := wetList[0];
        grid := grid[i := grid[i].(burned := false)];
        wetList := wetList[1..];
      }
    }

    /** nearest_center: a breadth-first search from the cell of rr that
        skips cells whose bound exceeds the best distance so far, then
        clears the marks. The source panics when no centre is nearer than
        the initial bound; here that is the None result. */
    method NearestCenter(rr: MCVector) returns (c: Option<nat>)
      requires Valid() && Idle()
      modifies this
      ensures Valid() && Idle() && grid == old(grid)
      ensures c.Some? ==> NearestOf(rr, c.value)
      ensures c.None? <==> forall k :: 0 <= k < |centers| ==> Dist2(rr, centers[k]) >= R2_START
    {
      ghost var g0 := grid;
      var r2Min: real := R2_START;
      var centerMin: Option<nat> := None;
      ghost var done: seq<nat> := [];
      ghost var examined: set<nat> := {};
      ghost var pruned: set<nat> := {};
      ghost var seen: set<nat> := {};
      SearchStart(Flood(grid, floodQueue, wetList), rr);
      AddTupleToQueue(WhichCellTuple(rr));

      while floodQueue != []
        invariant Searching(Flood(grid, floodQueue, wetList), g0, done, examined, pruned, seen, rr, centerMin, r2Min)
        decreases Unburned(grid), |floodQueue|
      {
        ghost var f := Flood(grid, floodQueue, wetList);
        SearchHead(f, g0, done, WhichCell(rr));
        var cellIdx := floodQueue[0];
        floodQueue := floodQueue[1..];
        ghost var f1 := Flood(grid, floodQueue, wetList);
        if MinDist2(rr, cellIdx) > r2Min {
          SearchPrune(f, g0, done, examined, pruned, seen, rr, centerMin, r2Min);
          done, pruned := done + [cellIdx], pruned + {cellIdx};
          continue;
        }
        var cs := grid[cellIdx].myCenters;
        ScanKeeps(DistancesTo(rr), seen, cs, centerMin, r2Min);
        ghost var seen0, best0, r2Min0 := seen, centerMin, r2Min;
        centerMin, r2Min := ScanCell(rr, cs, centerMin, r2Min);
        seen := seen + Elems(cs);
        OfferNbrsBurns(f1, cellIdx);
        AddNbrsToQueue(cellIdx);
        SearchExamine(f, f1, Flood(grid, floodQueue, wetList), g0, done, examined, pruned, seen0, rr, best0, r2Min0,
                      seen, centerMin, r2Min);
        done, examined := done + [cellIdx], examined + {cellIdx};
      }

      SearchEnd(Flood(grid, floodQueue, wetList), g0, done, examined, pruned, seen, rr, centerMin, r2Min);
      ClearWet();
      assert grid == g0;
      c := centerMin;
    }
  }
}
