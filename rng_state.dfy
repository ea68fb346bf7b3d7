// The random number state of src/mc/mc_rng_state.rs: a 64-bit linear
// congruential step, and the seed-spawning hash built from two rounds of
// a pseudo-DES network over the two 32-bit halves of a seed.

module RngState {
  import Arith

  const TWO_32: int := 0x1_0000_0000
  const TWO_64: int := 0x1_0000_0000_0000_0000

  type u64 = n: int | 0 <= n < 0x1_0000_0000_0000_0000
  type u32 = n: int | 0 <= n < 0x1_0000_0000
  type byte = n: int | 0 <= n < 256

  const LCG_MULTIPLIER: int := 2862933555777941757
  const LCG_INCREMENT: int := 3037000493
  /** The inverse of LCG_MULTIPLIER modulo 2^64 (the multiplier is odd). */
  const LCG_MULTIPLIER_INVERSE: int := 16133697096952638549

  const TWO_52: int := 0x10_0000_0000_0000
  const TWO_53: int := 0x20_0000_0000_0000
  const TWO_63: int := 0x8000_0000_0000_0000

  /** 5.421010862427522e-20, the literal the Rust code scales a state by. */
  const SAMPLE_SCALE_LITERAL: real := 5421010862427522.0 / 100000000000000000000000000000000000.0
  /** 5.4210108624275222e-20, the literal of the C reference generator. */
  const REFERENCE_SCALE_LITERAL: real := 54210108624275222.0 / 1000000000000000000000000000000000000.0

  /** The state update of rng_sample, with u64 wrap-around on the product and the sum. */
  function LcgStep(seed: u64): u64
  {
    ((LCG_MULTIPLIER * seed) % TWO_64 + LCG_INCREMENT) % TWO_64
  }

  /** Undoes one LcgStep. */
  function LcgUnstep(state: u64): u64
  {
    ((state - LCG_INCREMENT) * LCG_MULTIPLIER_INVERSE) % TWO_64
  }

  /** The wrapped product-then-sum is the plain affine map modulo 2^64. */
  lemma LcgStepIsAffine(seed: u64)
    ensures LcgStep(seed) == (LCG_MULTIPLIER * seed + LCG_INCREMENT) % TWO_64
  {
    var p := LCG_MULTIPLIER * seed;
    assert p % TWO_64 + LCG_INCREMENT == (p + LCG_INCREMENT) + TWO_64 * (-(p / TWO_64));
    Arith.ModAddMultiple(p + LCG_INCREMENT, -(p / TWO_64), TWO_64);
  }

  /** The state step is a bijection on u64: no two seeds step to the same state. */
  lemma LcgStepInvertible(seed: u64)
    ensures LcgUnstep(LcgStep(seed)) == seed
  {
    LcgStepIsAffine(seed);
    var a := LCG_MULTIPLIER * seed + LCG_INCREMENT;
    // a % 2^64 - INCREMENT and a - INCREMENT are congruent modulo 2^64
    assert (a % TWO_64 - LCG_INCREMENT) == (a - LCG_INCREMENT) + TWO_64 * (-(a / TWO_64));
    Arith.ModAddMultiple(a - LCG_INCREMENT, -(a / TWO_64), TWO_64);
    Arith.ModMulCongruent(a % TWO_64 - LCG_INCREMENT, a - LCG_INCREMENT, LCG_MULTIPLIER_INVERSE, TWO_64);
    assert (a - LCG_INCREMENT) * LCG_MULTIPLIER_INVERSE == seed * (LCG_MULTIPLIER * LCG_MULTIPLIER_INVERSE);
    assert (LCG_MULTIPLIER * LCG_MULTIPLIER_INVERSE) % TWO_64 == 1;
    Arith.ModMulCongruent(LCG_MULTIPLIER * LCG_MULTIPLIER_INVERSE, 1, seed, TWO_64);
    assert seed * (LCG_MULTIPLIER * LCG_MULTIPLIER_INVERSE) == (LCG_MULTIPLIER * LCG_MULTIPLIER_INVERSE) * seed;
  }

  lemma LcgStepInjective(a: u64, b: u64)
    ensures LcgStep(a) == LcgStep(b) <==> a == b
  {
    LcgStepInvertible(a);
    LcgStepInvertible(b);
  }

  // ---- u64 to f64 ----

  /** A power of two. */
  predicate IsPow2(p: nat)
  {
    p == 1 || (p >= 2 && p % 2 == 0 && IsPow2(p / 2))
  }

  /** The binary exponent step and the 53-bit significand of n: n / p == q
      with p a power of two, q < 2^53, and q >= 2^52 unless p == 1 (then q is
      n itself). */
  function Split(n: nat): (r: (nat, nat))
    ensures r.0 >= 1 && IsPow2(r.0) && r.1 == n / r.0 && r.1 < TWO_53
    ensures r.0 > 1 ==> r.1 >= TWO_52
    ensures r.0 == 1 <==> n < TWO_53
    decreases n
  {
    if n < TWO_53 then (1, n)
    else
      var s := Split(n / 2);
      Arith.DivDiv(n, 2, s.0);
      (2 * s.0, s.1)
  }

  /** `n as f64`: n rounded to 53 significant bits, to nearest with ties to
      the even significand, written back as an integer. */
  function ToF64(n: nat): nat
  {
    var (p, q) := Split(n);
    var r := n % p;
    if p == 1 then n
    else if r > p / 2 || (r == p / 2 && q % 2 == 1) then (q + 1) * p
    else q * p
  }

  /** Split finds the step p of every n with 2^52 * p <= n < 2^53 * p. */
  lemma {:induction false} SplitFor(n: nat, p: nat)
    requires IsPow2(p) && p >= 2 && TWO_52 * p <= n < TWO_53 * p
    ensures Split(n).0 == p
    decreases p
  {
    if p > 2 {
      SplitFor(n / 2, p / 2);
    } else {
      assert n / 2 < TWO_53;
    }
  }

  /** Every u64 converts to at most 2^64, and to exactly 2^64 (the f64
      2^64) precisely from 2^64 - 2^10 on. */
  lemma ToF64Top(n: u64)
    ensures ToF64(n) <= TWO_64
    ensures ToF64(n) == TWO_64 <==> n >= TWO_64 - 1024
  {
    if n < TWO_63 {
      ToF64BelowTwo63(n);
    } else {
      ToF64FromTwo63(n);
    }
  }

  /** Below 2^63 the step is below 2^11, so rounding stays below 2^63 + 2^11. */
  lemma ToF64BelowTwo63(n: nat)
    requires n < TWO_63
    ensures ToF64(n) < TWO_63 + 2048
  {
    var (p, q) := Split(n);
    if p > 1 {
      assert n == q * p + n % p;
      assert p < 2048 by {
        Arith.MulMono(p, TWO_52, q);
        assert p * TWO_52 <= n;
      }
      assert ToF64(n) <= (q + 1) * p;
      assert (q + 1) * p == q * p + p;
    }
  }

  /** From 2^63 on the step is 2^11; the significand reaches 2^53 exactly
      when n >= 2^64 - 2^10, the tie at 2^64 - 2^10 going to the even 2^53. */
  lemma ToF64FromTwo63(n: u64)
    requires n >= TWO_63
    ensures ToF64(n) <= TWO_64
    ensures ToF64(n) == TWO_64 <==> n >= TWO_64 - 1024
  {
    assert IsPow2(1) && IsPow2(2) && IsPow2(4) && IsPow2(8) && IsPow2(16) && IsPow2(32);
    assert IsPow2(64) && IsPow2(128) && IsPow2(256) && IsPow2(512) && IsPow2(1024) && IsPow2(2048);
    SplitFor(n, 2048);
  }

  /** Both scale literals name the same f64, 2^-64: each lies within half a
      step of 2^-64 (the f64 steps there are 2^-117 below and 2^-116 above). */
  lemma ScaleLiteralsAreTwoToMinus64()
    ensures 1.0 - 1.0 / (TWO_53 * 2) as real < SAMPLE_SCALE_LITERAL * TWO_64 as real < 1.0 + 1.0 / TWO_53 as real
    ensures 1.0 - 1.0 / (TWO_53 * 2) as real < REFERENCE_SCALE_LITERAL * TWO_64 as real < 1.0 + 1.0 / TWO_53 as real
  {
  }

  /** rng_sample: advances the caller's seed by one LCG step and returns the
      new state as an f64 times 2^-64 (the f64 both literals round to; the
      product is exact). The sample lies in [0, 1], and is 1 exactly for the
      states from 2^64 - 2^10 on, which round up to 2^64. */
  method RngSample(seed: u64) returns (next: u64, sample: real)
    ensures next == LcgStep(seed)
    ensures sample == ToF64(next) as real / TWO_64 as real
    ensures 0.0 <= sample <= 1.0
    ensures sample == 1.0 <==> next >= TWO_64 - 1024
  {
    next := ((LCG_MULTIPLIER * seed) % TWO_64 + LCG_INCREMENT) % TWO_64;
    sample := ToF64(next) as real / TWO_64 as real;
    ToF64Top(next);
  }

  /** spawn_rn_seed: the hash of the parent seed as it was on entry; the
      parent seed then takes exactly one LCG step. */
  method SpawnRnSeed(parent: u64) returns (spawned: u64, nextParent: u64)
    ensures spawned == HashState(parent)
    ensures nextParent == LcgStep(parent)
    ensures LcgUnstep(nextParent) == parent
  {
    spawned := HashState(parent);
    var sample;
    nextParent, sample := RngSample(parent);
    LcgStepInvertible(parent);
  }

  // ---- big-endian bytes ----

  function Pow256(k: nat): (p: nat)
    ensures p >= 1
  {
    if k == 0 then 1 else 256 * Pow256(k - 1)
  }

  /** The low k bytes of n, most significant first (to_be_bytes for k = 4 or 8). */
  function BeBytes(n: nat, k: nat): (bs: seq<byte>)
    ensures |bs| == k
  {
    if k == 0 then [] else BeBytes(n / 256, k - 1) + [n % 256]
  }

  /** from_be_bytes: the value of a big-endian byte string. */
  function FromBeBytes(bs: seq<byte>): (v: nat)
    ensures v < Pow256(|bs|)
  {
    if bs == [] then 0 else FromBeBytes(bs[..|bs| - 1]) * 256 + bs[|bs| - 1]
  }

  lemma {:induction false} FromBeBytesOfBeBytes(n: nat, k: nat)
    ensures FromBeBytes(BeBytes(n, k)) == n % Pow256(k)
  {
    if k > 0 {
      var bs := BeBytes(n, k);
      assert bs[..k - 1] == BeBytes(n / 256, k - 1);
      FromBeBytesOfBeBytes(n / 256, k - 1);
      Arith.DivDiv(n, 256, Pow256(k - 1));
    }
  }

  lemma {:induction false} FromBeBytesAppend(a: seq<byte>, b: seq<byte>)
    ensures FromBeBytes(a + b) == FromBeBytes(a) * Pow256(|b|) + FromBeBytes(b)
  {
    if b == [] {
      assert a + b == a;
    } else {
      var b' := b[..|b| - 1];
      assert (a + b)[..|a + b| - 1] == a + b';
      assert (a + b)[|a + b| - 1] == b[|b| - 1];
      FromBeBytesAppend(a, b');
      ShiftInDigit(FromBeBytes(a), Pow256(|b'|), FromBeBytes(b'), b[|b| - 1]);
    }
  }

  lemma ShiftInDigit(x: int, p: int, y: int, c: int)
    ensures (x * p + y) * 256 + c == x * (256 * p) + (y * 256 + c)
  {
  }

  /** BeBytes undoes FromBeBytes. */
  lemma {:induction false} BeBytesOfFromBeBytes(bs: seq<byte>)
    ensures BeBytes(FromBeBytes(bs), |bs|) == bs
  {
    if bs != [] {
      var init, last := bs[..|bs| - 1], bs[|bs| - 1];
      Arith.DivModUnique(FromBeBytes(bs), 256, FromBeBytes(init), last);
      BeBytesOfFromBeBytes(init);
      assert bs == init + [last];
    }
  }

  lemma Pow256Values()
    ensures Pow256(4) == TWO_32 && Pow256(8) == TWO_64
  {
  }

  /** breakup_u64: the first four big-endian bytes of n as one word, the last four as the other. */
  function BreakupU64(n: u64): (u32, u32)
  {
    Pow256Values();
    var tmp := BeBytes(n, 8);
    (FromBeBytes(tmp[..4]), FromBeBytes(tmp[4..]))
  }

  /** rebuild_u64: the u64 whose big-endian bytes are those of front, then those of back. */
  function RebuildU64(front: u32, back: u32): u64
  {
    Pow256Values();
    FromBeBytes(BeBytes(front, 4) + BeBytes(back, 4))
  }

  lemma RebuildValue(front: u32, back: u32)
    ensures RebuildU64(front, back) == front * TWO_32 + back
  {
    Pow256Values();
    var hi, lo := BeBytes(front, 4), BeBytes(back, 4);
    FromBeBytesAppend(hi, lo);
    WordBytes(front);
    WordBytes(back);
    calc {
      RebuildU64(front, back);
      FromBeBytes(hi + lo);
      FromBeBytes(hi) * Pow256(4) + FromBeBytes(lo);
      front * TWO_32 + back;
    }
  }

  lemma RebuildBreakup(n: u64)
    ensures RebuildU64(BreakupU64(n).0, BreakupU64(n).1) == n
  {
    BreakupHighFirst(n);
    RebuildValue(n / TWO_32, n % TWO_32);
  }

  /** n with its k low bytes dropped. */
  function DropBytes(n: nat, k: nat): nat
  {
    if k == 0 then n else DropBytes(n / 256, k - 1)
  }

  lemma {:induction false} DropBytesIsDiv(n: nat, k: nat)
    ensures DropBytes(n, k) == n / Pow256(k)
  {
    if k > 0 {
      DropBytesIsDiv(n / 256, k - 1);
      Arith.DivDiv(n, 256, Pow256(k - 1));
    }
  }

  /** The k + j low bytes of n are the j bytes above the low k, then the low k. */
  lemma {:induction false} BeBytesSplit(n: nat, j: nat, k: nat)
    ensures BeBytes(n, j + k) == BeBytes(DropBytes(n, k), j) + BeBytes(n, k)
  {
    if k > 0 {
      BeBytesSplit(n / 256, j, k - 1);
      assert BeBytes(n, j + k) == BeBytes(n / 256, j + k - 1) + [n % 256];
    }
  }

  /** The bytes of a rebuilt u64 are those of front, then those of back. */
  lemma RebuildBytes(front: u32, back: u32)
    ensures BeBytes(RebuildU64(front, back), 8) == BeBytes(front, 4) + BeBytes(back, 4)
  {
    Pow256Values();
    BeBytesOfFromBeBytes(BeBytes(front, 4) + BeBytes(back, 4));
  }

  lemma WordBytes(w: u32)
    ensures FromBeBytes(BeBytes(w, 4)) == w
  {
    Pow256Values();
    FromBeBytesOfBeBytes(w, 4);
  }

  lemma BreakupRebuild(front: u32, back: u32)
    ensures BreakupU64(RebuildU64(front, back)) == (front, back)
  {
    RebuildBytes(front, back);
    WordBytes(front);
    WordBytes(back);
    var tmp := BeBytes(RebuildU64(front, back), 8);
    assert tmp[..4] == BeBytes(front, 4);
    assert tmp[4..] == BeBytes(back, 4);
  }

  /** breakup_u64 puts the high 32 bits first. */
  lemma BreakupHighFirst(n: u64)
    ensures BreakupU64(n) == (n / TWO_32, n % TWO_32)
  {
    Pow256Values();
    var tmp := BeBytes(n, 8);
    BeBytesSplit(n, 4, 4);
    DropBytesIsDiv(n, 4);
    assert tmp[..4] == BeBytes(n / TWO_32, 4);
    assert tmp[4..] == BeBytes(n, 4);
    FromBeBytesOfBeBytes(n / TWO_32, 4);
    FromBeBytesOfBeBytes(n, 4);
    Arith.DivBelow(n, TWO_32, TWO_32);
  }

  // ---- bitwise exclusive or on naturals ----

  function Pow2(k: nat): (p: nat)
    ensures p >= 1
  {
    if k == 0 then 1 else 2 * Pow2(k - 1)
  }

  lemma {:induction false} Pow2Add(j: nat, k: nat)
    ensures Pow2(j + k) == Pow2(j) * Pow2(k)
  {
    if k > 0 {
      Pow2Add(j, k - 1);
      assert Pow2(j + k) == 2 * Pow2(j + k - 1);
    }
  }

  /** The bitwise exclusive or (the ^ operator), bit by bit from the lowest. */
  function Xor(a: nat, b: nat): nat
    decreases a + b
  {
    if a == 0 && b == 0 then 0 else 2 * Xor(a / 2, b / 2) + (a + b) % 2
  }

  lemma {:induction false} XorBound(a: nat, b: nat, k: nat)
    requires a < Pow2(k) && b < Pow2(k)
    ensures Xor(a, b) < Pow2(k)
    decreases k
  {
    if a + b > 0 {
      assert k > 0;
      XorBound(a / 2, b / 2, k - 1);
    }
  }

  lemma {:induction false} XorCancel(a: nat, b: nat)
    ensures Xor(Xor(a, b), b) == a
    decreases a + b
  {
    if a + b > 0 {
      var x, y := Xor(a, b), Xor(a / 2, b / 2);
      assert x == 2 * y + (a + b) % 2;
      Arith.DivModUnique(x, 2, y, (a + b) % 2);
      XorCancel(a / 2, b / 2);
      assert x + b > 0;
      assert Xor(x, b) == 2 * Xor(y, b / 2) + (x + b) % 2;
      ParityCancel(a, b, x);
    }
  }

  lemma ParityCancel(a: nat, b: nat, x: nat)
    requires x % 2 == (a + b) % 2
    ensures 2 * (a / 2) + (x + b) % 2 == a
  {
  }

  lemma Pow2Word()
    ensures Pow2(32) == TWO_32
  {
    assert Pow2(8) == 256;
    Pow2Add(8, 8);
    assert Pow2(16) == HALF;
    Pow2Add(16, 16);
  }

  lemma XorWord(a: u32, b: u32)
    ensures Xor(a, b) < TWO_32
  {
    Pow2Word();
    XorBound(a, b, 32);
  }

  // ---- pseudo-DES ----

  const DES_ROUNDS: nat := 2
  const C1: seq<u32> := [0xbaa96887, 0x1e17d32c, 0x03bcdc3c, 0x0f33d1b2]
  const C2: seq<u32> := [0x4b0f3b58, 0xe874f0c3, 0x6955c5a6, 0x55a7ca46]
  const HALF: int := 0x1_0000

  datatype Words = Words(lword: u32, irword: u32)

  /** The value a round xors into the left word, computed from the right
      word. On u32: `x & 0xffff` is x % 2^16, `x >> 16` is x / 2^16, `!x` is
      2^32 - 1 - x, the half swap ORs disjoint halves, and every product and
      sum wraps modulo 2^32. */
  function Mix(irword: u32, idx: nat): (m: u32)
    requires idx < 4
  {
    XorWord(irword, C1[idx]);
    var ia := Xor(irword, C1[idx]);
    var itmpl := ia % HALF;
    var itmph := ia / HALF;
    var ib := ((itmpl * itmpl) % TWO_32 + (TWO_32 - 1 - (itmph * itmph) % TWO_32)) % TWO_32;
    var swapped := ib / HALF + (ib % HALF) * HALF;
    XorWord(swapped, C2[idx]);
    (Xor(swapped, C2[idx]) + (itmpl * itmph) % TWO_32) % TWO_32
  }

  /** One round: the new lword is the old irword, and the old lword can be
      read back from the new irword by xoring Mix of the new lword. */
  function DesRound(w: Words, idx: nat): (r: Words)
    requires idx < 4
    ensures r.lword == w.irword
    ensures Xor(r.irword, Mix(r.lword, idx)) == w.lword
  {
    XorWord(w.lword, Mix(w.irword, idx));
    XorCancel(w.lword, Mix(w.irword, idx));
    Words(w.irword, Xor(w.lword, Mix(w.irword, idx)))
  }

  /** The first n rounds, in order 0, 1, ... */
  function DesRounds(w: Words, n: nat): Words
    requires n <= 4
  {
    if n == 0 then w else DesRound(DesRounds(w, n - 1), n - 1)
  }

  function UndoRound(w: Words, idx: nat): Words
    requires idx < 4
  {
    XorWord(w.irword, Mix(w.lword, idx));
    Words(Xor(w.irword, Mix(w.lword, idx)), w.lword)
  }

  function UndoRounds(w: Words, n: nat): Words
    requires n <= 4
    decreases n
  {
    if n == 0 then w else UndoRounds(UndoRound(w, n - 1), n - 1)
  }

  /** The network is invertible, round by round. */
  lemma {:induction false} UndoDesRounds(w: Words, n: nat)
    requires n <= 4
    ensures UndoRounds(DesRounds(w, n), n) == w
  {
    if n > 0 {
      var v := DesRounds(w, n - 1);
      assert UndoRound(DesRound(v, n - 1), n - 1) == v;
      UndoDesRounds(w, n - 1);
    }
  }

  /** pseudo_des: two rounds, each moving the right word to the left. */
  method PseudoDes(lword: u32, irword: u32) returns (l: u32, r: u32)
    ensures Words(l, r) == DesRounds(Words(lword, irword), DES_ROUNDS)
  {
    l, r := lword, irword;
    for idx := 0 to DES_ROUNDS
      invariant Words(l, r) == DesRounds(Words(lword, irword), idx)
    {
      var iswap := r;
      var m := Mix(iswap, idx);
      XorWord(l, m);
      r := Xor(l, m);
      l := iswap;
    }
  }

  /** hash_state: breakup, two pseudo-DES rounds, rebuild. */
  function HashState(init: u64): u64
  {
    var words := BreakupU64(init);
    var mixed := DesRounds(Words(words.0, words.1), DES_ROUNDS);
    RebuildU64(mixed.lword, mixed.irword)
  }

  /** Distinct parent seeds spawn distinct seeds. */
  lemma HashStateInjective(a: u64, b: u64)
    ensures HashState(a) == HashState(b) <==> a == b
  {
    if HashState(a) == HashState(b) {
      var wa, wb := BreakupU64(a), BreakupU64(b);
      var ma := DesRounds(Words(wa.0, wa.1), DES_ROUNDS);
      var mb := DesRounds(Words(wb.0, wb.1), DES_ROUNDS);
      BreakupRebuild(ma.lword, ma.irword);
      BreakupRebuild(mb.lword, mb.irword);
      assert ma == mb;
      UndoDesRounds(Words(wa.0, wa.1), DES_ROUNDS);
      UndoDesRounds(Words(wb.0, wb.1), DES_ROUNDS);
      RebuildBreakup(a);
      RebuildBreakup(b);
    }
  }
}
