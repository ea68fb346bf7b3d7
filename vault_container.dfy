// The vault container of src/particles/particle_vault_container.rs: lists
// of particle vaults for the particles to track, the tracked ones and the
// extra ones. A vault is a list of slots, each empty or holding a particle;
// its size is the number of particles it holds. Reserving room in a vault
// changes only its capacity, so a vault made by `reserve` has no slot at
// all, and placing a particle needs an empty slot: where there is none the
// source unwraps a missing position and panics, which is the Panicked
// outcome here. The send queue the container owns is modelled by its own
// module.

module VaultContainer {
  import opened Wrappers
  import Arith

  /** A vault: slots, each empty or holding a particle. */
  type Vault<P> = seq<Option<P>>

  /** ParticleVault::size: the number of particles in the vault. */
  function VaultSize<P>(v: Vault<P>): (n: nat)
    ensures n <= |v|
  {
    if v == [] then 0 else VaultSize(v[..|v| - 1]) + (if v[|v| - 1].Some? then 1 else 0)
  }

  /** The number of particles in a list of vaults. */
  function TotalSize<P>(vs: seq<Vault<P>>): nat
  {
    if vs == [] then 0 else TotalSize(vs[..|vs| - 1]) + VaultSize(vs[|vs| - 1])
  }

  /** Filling one slot changes the vault size by what the slot held and
      holds. */
  lemma {:induction false} VaultSizeUpdate<P>(v: Vault<P>, j: nat, x: Option<P>)
    requires j < |v|
    ensures VaultSize(v[j := x]) + (if v[j].Some? then 1 else 0) == VaultSize(v) + (if x.Some? then 1 else 0)
  {
    var w := v[j := x];
    var n := |v| - 1;
    if j < n {
      assert w[..n] == v[..n][j := x];
      VaultSizeUpdate(v[..n], j, x);
    } else {
      assert w[..n] == v[..n];
    }
  }

  /** Replacing one vault changes the total by the difference of sizes. */
  lemma {:induction false} TotalSizeUpdate<P>(vs: seq<Vault<P>>, i: nat, v: Vault<P>)
    requires i < |vs|
    ensures TotalSize(vs[i := v]) + VaultSize(vs[i]) == TotalSize(vs) + VaultSize(v)
  {
    var ws := vs[i := v];
    var n := |vs| - 1;
    if i < n {
      assert ws[..n] == vs[..n][i := v];
      TotalSizeUpdate(vs[..n], i, v);
    } else {
      assert ws[..n] == vs[..n];
    }
  }

  /** An appended vault adds its size to the total. */
  lemma TotalSizeAppend<P>(vs: seq<Vault<P>>, v: Vault<P>)
    ensures TotalSize(vs + [v]) == TotalSize(vs) + VaultSize(v)
  {
    assert (vs + [v])[..|vs|] == vs;
  }

  /** The totals of the prefixes of a list grow vault by vault. */
  lemma TotalSizePrefix<P>(vs: seq<Vault<P>>, i: nat)
    requires i < |vs|
    ensures TotalSize(vs[..i + 1]) == TotalSize(vs[..i]) + VaultSize(vs[i])
  {
    assert vs[..i + 1][..i] == vs[..i];
  }

  /** The sizes of the prefixes of a vault grow slot by slot. */
  lemma VaultSizePrefix<P>(v: Vault<P>, j: nat)
    requires j < |v|
    ensures VaultSize(v[..j + 1]) == VaultSize(v[..j]) + (if v[j].Some? then 1 else 0)
  {
    assert v[..j + 1][..j] == v[..j];
  }

  // ---- the particles of vaults, in order ----

  /** The particles of a vault, slot by slot. */
  function SlotParticles<P>(v: Vault<P>): seq<P>
  {
    if v == [] then [] else (if v[0].Some? then [v[0].value] else []) + SlotParticles(v[1..])
  }

  /** The particles of a list of vaults, vault by vault and slot by slot:
      the order in which clean_extra_vaults meets them. */
  function Particles<P>(vs: seq<Vault<P>>): seq<P>
  {
    if vs == [] then [] else SlotParticles(vs[0]) + Particles(vs[1..])
  }

  /** The particles from vault i on are those of vault i, then those after it. */
  lemma ParticlesFrom<P>(vs: seq<Vault<P>>, i: nat)
    requires i < |vs|
    ensures Particles(vs[i..]) == SlotParticles(vs[i]) + Particles(vs[i + 1..])
  {
    assert vs[i..][1..] == vs[i + 1..];
  }

  /** The particles from slot j on are that slot's, then those after it. */
  lemma SlotParticlesFrom<P>(v: Vault<P>, j: nat)
    requires j < |v|
    ensures SlotParticles(v[j..]) == (if v[j].Some? then [v[j].value] else []) + SlotParticles(v[j + 1..])
  {
    assert v[j..][1..] == v[j + 1..];
  }

  /** The size of a vault counted from its first slot. */
  lemma {:induction false} VaultSizeFront<P>(v: Vault<P>)
    requires v != []
    ensures VaultSize(v) == (if v[0].Some? then 1 else 0) + VaultSize(v[1..])
  {
    var n := |v|;
    if n == 1 {
      assert v[..0] == [] && v[1..] == [];
    } else {
      VaultSizeFront(v[..n - 1]);
      assert v[..n - 1][1..] == v[1..][..n - 2];
      assert v[..n - 1][0] == v[0] && v[1..][n - 2] == v[n - 1];
    }
  }

  /** The total of a list counted from its first vault. */
  lemma {:induction false} TotalSizeFront<P>(vs: seq<Vault<P>>)
    requires vs != []
    ensures TotalSize(vs) == VaultSize(vs[0]) + TotalSize(vs[1..])
  {
    var n := |vs|;
    if n == 1 {
      assert vs[..0] == [] && vs[1..] == [];
    } else {
      TotalSizeFront(vs[..n - 1]);
      assert vs[..n - 1][1..] == vs[1..][..n - 2];
      assert vs[..n - 1][0] == vs[0] && vs[1..][n - 2] == vs[n - 1];
    }
  }

  /** A vault holds as many particles as its size says. */
  lemma {:induction false} SlotParticlesCount<P>(v: Vault<P>)
    ensures |SlotParticles(v)| == VaultSize(v)
  {
    if v != [] {
      VaultSizeFront(v);
      SlotParticlesCount(v[1..]);
    }
  }

  /** A list of vaults holds as many particles as its total size says. */
  lemma {:induction false} ParticlesCount<P>(vs: seq<Vault<P>>)
    ensures |Particles(vs)| == TotalSize(vs)
  {
    if vs != [] {
      TotalSizeFront(vs);
      SlotParticlesCount(vs[0]);
      ParticlesCount(vs[1..]);
    }
  }

  /** A vault of size 0 holds no particle. */
  lemma {:induction false} EmptyVaultNoParticles<P>(v: Vault<P>)
    requires VaultSize(v) == 0
    ensures SlotParticles(v) == []
  {
    NoneWhenEmpty(v);
    NoParticlesWhenNone(v);
  }

  lemma {:induction false} NoneWhenEmpty<P>(v: Vault<P>)
    requires VaultSize(v) == 0
    ensures forall j :: 0 <= j < |v| ==> v[j].None?
  {
    if v != [] {
      NoneWhenEmpty(v[..|v| - 1]);
      forall j | 0 <= j < |v| ensures v[j].None? {
        if j < |v| - 1 {
          assert v[j] == v[..|v| - 1][j];
        }
      }
    }
  }

  lemma {:induction false} NoParticlesWhenNone<P>(v: Vault<P>)
    requires forall j :: 0 <= j < |v| ==> v[j].None?
    ensures SlotParticles(v) == []
  {
    if v != [] {
      assert forall j :: 0 <= j < |v[1..]| ==> v[1..][j] == v[j + 1];
      NoParticlesWhenNone(v[1..]);
    }
  }

  /** Filling an empty slot adds its particle to the vault's particles. */
  lemma {:induction false} SlotParticlesFill<P>(v: Vault<P>, j: nat, p: P)
    requires j < |v| && v[j].None?
    ensures multiset(SlotParticles(v[j := Some(p)])) == multiset(SlotParticles(v)) + multiset{p}
  {
    if j > 0 {
      assert v[j := Some(p)][1..] == v[1..][j - 1 := Some(p)];
      SlotParticlesFill(v[1..], j - 1, p);
    } else {
      assert v[j := Some(p)][1..] == v[1..];
    }
  }

  /** Filling an empty slot of vault i adds its particle to the particles
      of the list. */
  lemma {:induction false} ParticlesFill<P>(vs: seq<Vault<P>>, i: nat, j: nat, p: P)
    requires i < |vs| && j < |vs[i]| && vs[i][j].None?
    ensures multiset(Particles(vs[i := vs[i][j := Some(p)]])) == multiset(Particles(vs)) + multiset{p}
  {
    var ws := vs[i := vs[i][j := Some(p)]];
    assert Particles(ws) == SlotParticles(ws[0]) + Particles(ws[1..]);
    assert Particles(vs) == SlotParticles(vs[0]) + Particles(vs[1..]);
    if i > 0 {
      assert ws[0] == vs[0];
      assert ws[1..] == vs[1..][i - 1 := vs[1..][i - 1][j := Some(p)]];
      ParticlesFill(vs[1..], i - 1, j, p);
      assert multiset(Particles(ws[1..])) == multiset(Particles(vs[1..])) + multiset{p};
    } else {
      assert ws[1..] == vs[1..];
      SlotParticlesFill(vs[0], j, p);
      assert multiset(SlotParticles(ws[0])) == multiset(SlotParticles(vs[0])) + multiset{p};
    }
  }

  /** An appended vault without slots adds no particle. */
  lemma {:induction false} ParticlesAppendEmpty<P>(vs: seq<Vault<P>>)
    ensures Particles(vs + [[]]) == Particles(vs)
  {
    if vs != [] {
      assert (vs + [[]])[1..] == vs[1..] + [[]];
      ParticlesAppendEmpty(vs[1..]);
    }
  }

  /** The first empty slot of a vault at or after `from`. */
  function FirstFree<P>(v: Vault<P>, from: nat): (r: Option<nat>)
    requires from <= |v|
    ensures r.Some? ==> from <= r.value < |v| && v[r.value].None?
    ensures r.Some? ==> forall j :: from <= j < r.value ==> v[j].Some?
    ensures r.None? <==> forall j :: from <= j < |v| ==> v[j].Some?
    decreases |v| - from
  {
    if from == |v| then None
    else if v[from].None? then Some(from)
    else FirstFree(v, from + 1)
  }

  /** A particle put in the first empty slot of a vault; None when every
      slot is taken. */
  function Place<P>(v: Vault<P>, p: P): (r: Option<Vault<P>>)
    ensures r.Some? <==> exists j :: 0 <= j < |v| && v[j].None?
    ensures r.Some? ==> |r.value| == |v| && VaultSize(r.value) == VaultSize(v) + 1
    ensures r.Some? ==> exists j :: 0 <= j < |v| && v[j].None? && r.value == v[j := Some(p)]
  {
    match FirstFree(v, 0)
    case None => None
    case Some(j) =>
      VaultSizeUpdate(v, j, Some(p));
      Some(v[j := Some(p)])
  }

  /** The first vault at or after `from` holding no particle. */
  function FirstEmpty<P>(vs: seq<Vault<P>>, from: nat): (r: Option<nat>)
    requires from <= |vs|
    ensures r.Some? ==> from <= r.value < |vs| && VaultSize(vs[r.value]) == 0
    ensures r.Some? ==> forall j :: from <= j < r.value ==> VaultSize(vs[j]) > 0
    ensures r.None? <==> forall j :: from <= j < |vs| ==> VaultSize(vs[j]) > 0
    decreases |vs| - from
  {
    if from == |vs| then None
    else if VaultSize(vs[from]) == 0 then Some(from)
    else FirstEmpty(vs, from + 1)
  }

  /** The vault at an index, or the fresh vault appended there. */
  function VaultAt<P>(vs: seq<Vault<P>>, k: nat): Vault<P>
  {
    if k < |vs| then vs[k] else []
  }

  /** The number of particles in a list of vaults, summed vault by vault
      as particles_*_size does. */
  method CountParticles<P>(vs: seq<Vault<P>>) returns (total: nat)
    ensures total == TotalSize(vs)
  {
    total := 0;
    var i := 0;
    while i < |vs|
      invariant 0 <= i <= |vs|
      invariant total == TotalSize(vs[..i])
    {
      TotalSizePrefix(vs, i);
      total := total + VaultSize(vs[i]);
      i := i + 1;
    }
    assert vs[..i] == vs;
  }

  /** The vault the fill loop of set_as_processed and
      add_processing_particle stops at: the first at or after `fill` with
      room, or |vs| (the vault it appends) when every one from `fill` on is
      full. */
  function FillAt<P>(vs: seq<Vault<P>>, fill: nat, vaultSize: nat): (at: nat)
    requires fill <= |vs|
    ensures fill <= at <= |vs|
    ensures at < |vs| ==> VaultSize(vs[at]) < vaultSize
    ensures forall k :: fill <= k < at ==> VaultSize(vs[k]) >= vaultSize
    decreases |vs| - fill
  {
    if fill == |vs| || VaultSize(vs[fill]) < vaultSize then fill else FillAt(vs, fill + 1, vaultSize)
  }

  /** One particle added as set_as_processed and add_processing_particle
      add it: the outcome, the vaults after it and the vault used. */
  function PutStep<P>(vs: seq<Vault<P>>, fill: nat, vaultSize: nat, p: P): (r: (Outcome, seq<Vault<P>>, nat))
    requires fill < |vs|
    ensures fill <= r.2 < |r.1|
    ensures |r.1| == |vs| || (|r.1| == |vs| + 1 && r.2 == |vs|)
  {
    var at := FillAt(vs, fill, vaultSize);
    var grown := if at < |vs| then vs else vs + [[]];
    match FirstFree(grown[at], 0)
    case None => (Panicked, grown, at)
    case Some(j) => (Done, grown[at := grown[at][j := Some(p)]], at)
  }

  /** One step keeps every particle and, unless it panicked, adds p. */
  lemma PutStepKeepsParticles<P>(vs: seq<Vault<P>>, fill: nat, vaultSize: nat, p: P)
    requires fill < |vs|
    ensures var r := PutStep(vs, fill, vaultSize, p);
      (r.0 == Done ==> multiset(Particles(r.1)) == multiset(Particles(vs)) + multiset{p}) &&
      (r.0 == Panicked ==> Particles(r.1) == Particles(vs))
  {
    var at := FillAt(vs, fill, vaultSize);
    var grown := if at < |vs| then vs else vs + [[]];
    ParticlesAppendEmpty(vs);
    match FirstFree(grown[at], 0)
    case None =>
    case Some(j) => ParticlesFill(grown, at, j, p);
  }

  /** add_processing_particle applied to each particle in turn with a
      running fill index, as clean_extra_vaults does; the first panic stops
      it with the vaults as they then are. */
  function AddAll<P>(vs: seq<Vault<P>>, fill: nat, vaultSize: nat, ps: seq<P>): (r: (Outcome, seq<Vault<P>>, nat))
    requires fill < |vs|
    ensures fill <= r.2 < |r.1|
    decreases |ps|
  {
    if ps == [] then (Done, vs, fill)
    else
      var s := PutStep(vs, fill, vaultSize, ps[0]);
      if s.0 == Panicked then s else AddAll(s.1, s.2, vaultSize, ps[1..])
  }

  /** Adding p then rest is one step, then (unless it panicked) the rest. */
  lemma AddAllCons<P>(vs: seq<Vault<P>>, fill: nat, vaultSize: nat, p: P, rest: seq<P>)
    requires fill < |vs|
    ensures var s := PutStep(vs, fill, vaultSize, p);
      AddAll(vs, fill, vaultSize, [p] + rest) == if s.0 == Panicked then s else AddAll(s.1, s.2, vaultSize, rest)
  {
    assert ([p] + rest)[0] == p && ([p] + rest)[1..] == rest;
  }

  /** Adding a + b is adding a, then (unless that panicked) adding b from
      where a left the vaults and the fill index. */
  lemma {:induction false} AddAllAppend<P>(vs: seq<Vault<P>>, fill: nat, vaultSize: nat, a: seq<P>, b: seq<P>)
    requires fill < |vs|
    ensures var r := AddAll(vs, fill, vaultSize, a);
      AddAll(vs, fill, vaultSize, a + b) == if r.0 == Panicked then r else AddAll(r.1, r.2, vaultSize, b)
    decreases |a|
  {
    if a == [] {
      assert a + b == b;
    } else {
      var s := PutStep(vs, fill, vaultSize, a[0]);
      assert (a + b)[0] == a[0] && (a + b)[1..] == a[1..] + b;
      if s.0 == Done {
        AddAllAppend(s.1, s.2, vaultSize, a[1..], b);
      }
    }
  }

  /** Adding particles one by one loses none: when no step panics, the
      vaults hold their particles and the added ones. */
  lemma {:induction false} AddAllKeepsParticles<P>(vs: seq<Vault<P>>, fill: nat, vaultSize: nat, ps: seq<P>)
    requires fill < |vs|
    ensures AddAll(vs, fill, vaultSize, ps).0 == Done ==>
      multiset(Particles(AddAll(vs, fill, vaultSize, ps).1)) == multiset(Particles(vs)) + multiset(ps)
    decreases |ps|
  {
    if ps != [] {
      var s := PutStep(vs, fill, vaultSize, ps[0]);
      assert ps == [ps[0]] + ps[1..];
      AddAllCons(vs, fill, vaultSize, ps[0], ps[1..]);
      if s.0 == Done {
        PutStepKeepsParticles(vs, fill, vaultSize, ps[0]);
        AddAllKeepsParticles(s.1, s.2, vaultSize, ps[1..]);
        assert AddAll(vs, fill, vaultSize, ps) == AddAll(s.1, s.2, vaultSize, ps[1..]);
      }
    }
  }

  /** The search for a vault with room shared by set_as_processed and
      add_processing_particle: from `fill`, skip the full vaults, appending
      a fresh vault when the list runs out. */
  method FindFillVault<P>(vs: seq<Vault<P>>, fill: nat, vaultSize: nat) returns (grown: seq<Vault<P>>, at: nat)
    requires fill < |vs| && vaultSize > 0
    ensures grown == vs || (grown == vs + [[]] && at == |vs|)
    ensures fill <= at < |grown| && VaultSize(grown[at]) < vaultSize
    ensures forall k :: fill <= k < at ==> VaultSize(vs[k]) >= vaultSize
    ensures at == FillAt(vs, fill, vaultSize) && grown == if at < |vs| then vs else vs + [[]]
  {
    grown := vs;
    at := fill;
    while VaultSize(grown[at]) >= vaultSize
      invariant grown == vs || (grown == vs + [[]] && at == |vs|)
      invariant fill <= at < |grown| && at <= |vs|
      invariant forall k :: fill <= k < at ==> VaultSize(vs[k]) >= vaultSize
      invariant FillAt(vs, at, vaultSize) == FillAt(vs, fill, vaultSize)
      decreases |vs| - at
    {
      at := at + 1;
      if at >= |grown| {
        grown := grown + [[]];
      }
    }
  }

  datatype Outcome = Done | Panicked

  /** Places a particle as set_as_processed and add_processing_particle do:
      in the first empty slot of the first vault with room at or after
      `fill`, appending a fresh vault when every vault from `fill` on is
      full. Panicked when the chosen vault has no empty slot. */
  method PutInFillVault<P>(vs: seq<Vault<P>>, fill: nat, vaultSize: nat, particle: P)
    returns (outcome: Outcome, result: seq<Vault<P>>, at: nat)
    requires fill < |vs| && vaultSize > 0
    ensures fill <= at < |result|
    ensures |result| == |vs| || (|result| == |vs| + 1 && at == |vs|)
    ensures forall k :: fill <= k < at ==> VaultSize(result[k]) >= vaultSize
    ensures forall k :: 0 <= k < |vs| && k != at ==> result[k] == vs[k]
    ensures var target := Place(VaultAt(vs, at), particle);
      (outcome == Done <==> target.Some?) &&
      (outcome == Done ==> result[at] == target.value) &&
      (outcome == Panicked ==> result[at] == VaultAt(vs, at))
    ensures outcome == Done ==> TotalSize(result) == TotalSize(vs) + 1
    ensures outcome == Panicked ==> TotalSize(result) == TotalSize(vs)
    ensures (outcome, result, at) == PutStep(vs, fill, vaultSize, particle)
  {
    var grown;
    grown, at := FindFillVault(vs, fill, vaultSize);
    TotalSizeAppend(vs, []);
    var target := Place(grown[at], particle);
    if target.None? {
      return Panicked, grown, at;
    }
    TotalSizeUpdate(grown, at, target.value);
    return Done, grown[at := target.value], at;
  }

  /** ParticleVaultContainer. Its operations require vaultSize > 0: with a
      vault size of 0 the search for a vault with room never ends and
      add_extra_particle divides by zero; the simulation asserts a non-zero
      batch size before passing it as the vault size. */
  class ParticleVaultContainer<P> {
    var vaultSize: nat
    var numExtraVaults: nat
    var extraVaultIndex: nat
    var processingVaults: seq<Vault<P>>
    var processedVaults: seq<Vault<P>>
    var extraVault: seq<Vault<P>>

    /** One extra vault per counted extra vault, and the running index of
        extra particles never past their capacity. */
    ghost predicate Valid()
      reads this
    {
      |extraVault| == numExtraVaults && extraVaultIndex <= vaultSize * numExtraVaults
    }

    /** new: the vault lists hold vaults without slots (reserving room does
        not make slots). */
    constructor (vaultSize: nat, numVaults: nat, numExtraVaults: nat)
      ensures Valid()
      ensures this.vaultSize == vaultSize && this.numExtraVaults == numExtraVaults && extraVaultIndex == 0
      ensures processingVaults == seq(numVaults, _ => []) && processedVaults == seq(numVaults, _ => [])
      ensures extraVault == seq(numExtraVaults, _ => [])
    {
      this.vaultSize := vaultSize;
      this.numExtraVaults := numExtraVaults;
      extraVaultIndex := 0;
      processingVaults := seq(numVaults, _ => []);
      processedVaults := seq(numVaults, _ => []);
      extraVault := seq(numExtraVaults, _ => []);
    }

    /** particles_processing_size */
    method ParticlesProcessingSize() returns (total: nat)
      ensures total == TotalSize(processingVaults)
    {
      total := CountParticles(processingVaults);
    }

    /** particles_processed_size */
    method ParticlesProcessedSize() returns (total: nat)
      ensures total == TotalSize(processedVaults)
    {
      total := CountParticles(processedVaults);
    }

    /** particles_extra_size */
    method ParticlesExtraSize() returns (total: nat)
      ensures total == TotalSize(extraVault)
    {
      total := CountParticles(extraVault);
    }

    /** get_first_empty_processed_vault: the first processed vault holding
        no particle; when there is none, a fresh vault is appended and its
        index returned. */
    method GetFirstEmptyProcessedVault() returns (index: nat)
      modifies this
      ensures index < |processedVaults| && VaultSize(processedVaults[index]) == 0
      ensures forall j :: 0 <= j < index ==> VaultSize(processedVaults[j]) > 0
      ensures FirstEmpty(old(processedVaults), 0).Some? ==> processedVaults == old(processedVaults)
      ensures FirstEmpty(old(processedVaults), 0).None? ==>
        processedVaults == old(processedVaults) + [[]] && index == old(|processedVaults|)
      ensures processingVaults == old(processingVaults) && extraVault == old(extraVault)
      ensures vaultSize == old(vaultSize) && numExtraVaults == old(numExtraVaults) && extraVaultIndex == old(extraVaultIndex)
    {
      var found := FirstEmpty(processedVaults, 0);
      if found.Some? {
        index := found.value;
      } else {
        processedVaults := processedVaults + [[]];
        index := |processedVaults| - 1;
      }
    }

    /** set_as_processed: moves the particle of a processing slot to the
        first empty slot of the first processed vault with room (appending
        a vault when all are full) and empties its old slot. Panics when that
        vault has room but no empty slot. The number of particles is kept. */
    method SetAsProcessed(processingVaultIdx: nat, particleIdx: nat) returns (outcome: Outcome, fillVaultIdx: nat)
      requires processingVaultIdx < |processingVaults|
      requires particleIdx < |processingVaults[processingVaultIdx]|
      requires processingVaults[processingVaultIdx][particleIdx].Some?
      requires |processedVaults| > 0 && vaultSize > 0
      modifies this
      ensures fillVaultIdx < |processedVaults|
      ensures |processedVaults| == old(|processedVaults|) || (|processedVaults| == old(|processedVaults|) + 1 && fillVaultIdx == old(|processedVaults|))
      ensures forall k :: 0 <= k < fillVaultIdx ==> VaultSize(processedVaults[k]) >= vaultSize
      ensures forall k :: 0 <= k < old(|processedVaults|) && k != fillVaultIdx ==> processedVaults[k] == old(processedVaults[k])
      ensures var target := Place(VaultAt(old(processedVaults), fillVaultIdx), old(processingVaults[processingVaultIdx][particleIdx].value));
        (outcome == Done <==> target.Some?) &&
        (outcome == Done ==> processedVaults[fillVaultIdx] == target.value)
      ensures outcome == Done ==>
        processingVaults == old(processingVaults)[processingVaultIdx := old(processingVaults[processingVaultIdx])[particleIdx := None]]
      ensures outcome == Done ==> TotalSize(processedVaults) == old(TotalSize(processedVaults)) + 1
      ensures outcome == Done ==> TotalSize(processingVaults) + 1 == old(TotalSize(processingVaults))
      ensures outcome == Panicked ==> processingVaults == old(processingVaults)
      ensures (outcome, processedVaults, fillVaultIdx) ==
        PutStep(old(processedVaults), 0, vaultSize, old(processingVaults[processingVaultIdx][particleIdx].value))
      ensures unchanged(this`extraVault, this`vaultSize, this`numExtraVaults, this`extraVaultIndex)
    {
      var particle := processingVaults[processingVaultIdx][particleIdx].value;
      var result;
      outcome, result, fillVaultIdx := PutInFillVault(processedVaults, 0, vaultSize, particle);
      processedVaults := result;
      if outcome == Done {
        var source := processingVaults[processingVaultIdx];
        VaultSizeUpdate(source, particleIdx, None);
        TotalSizeUpdate(processingVaults, processingVaultIdx, source[particleIdx := None]);
        processingVaults := processingVaults[processingVaultIdx := source[particleIdx := None]];
      }
    }

    /** add_processing_particle: puts the particle in the first empty slot
        of the first processing vault with room at or after fillVaultIndex
        (appending a vault when all are full); returns the vault used as the
        new fill index. Panics when that vault has room but no empty slot. */
    method AddProcessingParticle(particle: P, fillVaultIndex: nat) returns (outcome: Outcome, newFill: nat)
      requires fillVaultIndex < |processingVaults| && vaultSize > 0
      modifies this
      ensures fillVaultIndex <= newFill < |processingVaults|
      ensures |processingVaults| == old(|processingVaults|) || (|processingVaults| == old(|processingVaults|) + 1 && newFill == old(|processingVaults|))
      ensures forall k :: fillVaultIndex <= k < newFill ==> VaultSize(processingVaults[k]) >= vaultSize
      ensures forall k :: 0 <= k < old(|processingVaults|) && k != newFill ==> processingVaults[k] == old(processingVaults[k])
      ensures var target := Place(VaultAt(old(processingVaults), newFill), particle);
        (outcome == Done <==> target.Some?) &&
        (outcome == Done ==> processingVaults[newFill] == target.value) &&
        (outcome == Panicked ==> processingVaults[newFill] == VaultAt(old(processingVaults), newFill))
      ensures outcome == Done ==> TotalSize(processingVaults) == old(TotalSize(processingVaults)) + 1
      ensures outcome == Panicked ==> TotalSize(processingVaults) == old(TotalSize(processingVaults))
      ensures (outcome, processingVaults, newFill) == PutStep(old(processingVaults), fillVaultIndex, vaultSize, particle)
      ensures unchanged(this`processedVaults, this`extraVault, this`vaultSize, this`numExtraVaults, this`extraVaultIndex)
    {
      var result;
      outcome, result, newFill := PutInFillVault(processingVaults, fillVaultIndex, vaultSize, particle);
      processingVaults := result;
    }

    /** add_extra_particle: appends the particle to extra vault
        extraVaultIndex / vaultSize, adding that vault when it does not
        exist yet, and advances the running index. */
    method AddExtraParticle(particle: P)
      requires Valid() && vaultSize > 0
      modifies this
      ensures Valid()
      ensures extraVaultIndex == old(extraVaultIndex) + 1
      ensures old(extraVaultIndex) / vaultSize <= old(numExtraVaults)
      ensures numExtraVaults == old(numExtraVaults) + (if old(extraVaultIndex) / vaultSize == old(numExtraVaults) then 1 else 0)
      ensures var vault := old(extraVaultIndex) / vaultSize;
        extraVault[vault] == VaultAt(old(extraVault), vault) + [Some(particle)] &&
        forall k :: 0 <= k < old(|extraVault|) && k != vault ==> extraVault[k] == old(extraVault[k])
      ensures TotalSize(extraVault) == old(TotalSize(extraVault)) + 1
      ensures processingVaults == old(processingVaults) && processedVaults == old(processedVaults)
      ensures vaultSize == old(vaultSize)
    {
      var vault := extraVaultIndex / vaultSize;
      ExtraVaultInRange(extraVaultIndex, numExtraVaults, vaultSize);
      if vault >= numExtraVaults {
        numExtraVaults := numExtraVaults + 1;
      }
      extraVaultIndex := extraVaultIndex + 1;
      extraVault := PushExtra(extraVault, vault, particle);
    }

    /** clean_extra_vaults: when the extra vaults hold particles, each of
        them, vault by vault and slot by slot, is added to the processing
        vaults with a running fill index starting at the first vault (AddAll),
        then every extra vault is emptied; no particle is lost. A panic of
        add_processing_particle stops it with the processing vaults as they
        then are and the extra vaults untouched. The running extra index is
        not reset. */
    method CleanExtraVaults() returns (outcome: Outcome)
      requires TotalSize(extraVault) > 0 ==> |processingVaults| > 0 && vaultSize > 0
      modifies this
      ensures TotalSize(old(extraVault)) == 0 ==> outcome == Done && processingVaults == old(processingVaults) && extraVault == old(extraVault)
      ensures TotalSize(old(extraVault)) > 0 ==>
        (outcome, processingVaults) == (var r := AddAll(old(processingVaults), 0, vaultSize, Particles(old(extraVault))); (r.0, r.1))
      ensures outcome == Done ==> TotalSize(processingVaults) == old(TotalSize(processingVaults)) + old(TotalSize(extraVault))
      ensures outcome == Done ==>
        multiset(Particles(processingVaults)) == old(multiset(Particles(processingVaults))) + old(multiset(Particles(extraVault)))
      ensures TotalSize(old(extraVault)) > 0 && outcome == Done ==> extraVault == seq(old(|extraVault|), _ => [])
      ensures outcome == Panicked ==> extraVault == old(extraVault)
      ensures processedVaults == old(processedVaults) && vaultSize == old(vaultSize)
      ensures numExtraVaults == old(numExtraVaults) && extraVaultIndex == old(extraVaultIndex)
    {
      var n := CountParticles(extraVault);
      if n == 0 {
        EmptyListNoParticles(extraVault);
        return Done;
      }
      var extra := extraVault;
      MoveKeepsParticles(processingVaults, vaultSize, extra);
      outcome := AddExtraParticles(extra);
      if outcome == Done {
        ClearExtraVaults();
      }
    }

    /** The last loop of clean_extra_vaults: every extra vault emptied. */
    method ClearExtraVaults()
      modifies this
      ensures extraVault == seq(old(|extraVault|), _ => [])
      ensures processingVaults == old(processingVaults) && processedVaults == old(processedVaults) && vaultSize == old(vaultSize)
      ensures numExtraVaults == old(numExtraVaults) && extraVaultIndex == old(extraVaultIndex)
    {
      var k := 0;
      while k < |extraVault|
        invariant 0 <= k <= |extraVault| == old(|extraVault|)
        invariant forall m :: 0 <= m < k ==> extraVault[m] == []
        invariant processingVaults == old(processingVaults) && processedVaults == old(processedVaults) && vaultSize == old(vaultSize)
        invariant numExtraVaults == old(numExtraVaults) && extraVaultIndex == old(extraVaultIndex)
      {
        extraVault := extraVault[k := []];
        k := k + 1;
      }
    }

    /** The loops of clean_extra_vaults: the particles of the given extra
        vaults, vault by vault, through add_processing_particle. */
    method AddExtraParticles(extra: seq<Vault<P>>) returns (outcome: Outcome)
      requires |processingVaults| > 0 && vaultSize > 0
      modifies this
      ensures var r := AddAll(old(processingVaults), 0, vaultSize, Particles(extra));
        outcome == r.0 && processingVaults == r.1
      ensures processedVaults == old(processedVaults) && vaultSize == old(vaultSize) && extraVault == old(extraVault)
      ensures numExtraVaults == old(numExtraVaults) && extraVaultIndex == old(extraVaultIndex)
    {
      ghost var goal := AddAll(processingVaults, 0, vaultSize, Particles(extra));
      var fill: nat := 0;
      var i := 0;
      while i < |extra|
        invariant 0 <= i <= |extra| && fill < |processingVaults|
        invariant AddAll(processingVaults, fill, vaultSize, Particles(extra[i..])) == goal
        invariant processedVaults == old(processedVaults) && vaultSize == old(vaultSize) && extraVault == old(extraVault)
        invariant numExtraVaults == old(numExtraVaults) && extraVaultIndex == old(extraVaultIndex)
      {
        ParticlesFrom(extra, i);
        AddAllAppend(processingVaults, fill, vaultSize, SlotParticles(extra[i]), Particles(extra[i + 1..]));
        if VaultSize(extra[i]) != 0 {
          outcome, fill := AddVaultParticles(extra[i], fill);
          if outcome == Panicked {
            return;
          }
        } else {
          EmptyVaultNoParticles(extra[i]);
        }
        i := i + 1;
      }
      assert extra[i..] == [];
      outcome := Done;
    }

    /** The inner loop of clean_extra_vaults: the particles of one extra
        vault, slot by slot, through add_processing_particle. */
    method AddVaultParticles(slots: Vault<P>, fill: nat) returns (outcome: Outcome, newFill: nat)
      requires fill < |processingVaults| && vaultSize > 0
      modifies this
      ensures (outcome, processingVaults, newFill) == AddAll(old(processingVaults), fill, vaultSize, SlotParticles(slots))
      ensures processedVaults == old(processedVaults) && vaultSize == old(vaultSize) && extraVault == old(extraVault)
      ensures numExtraVaults == old(numExtraVaults) && extraVaultIndex == old(extraVaultIndex)
    {
      ghost var goal := AddAll(processingVaults, fill, vaultSize, SlotParticles(slots));
      newFill := fill;
      var j := 0;
      while j < |slots|
        invariant 0 <= j <= |slots| && newFill < |processingVaults|
        invariant AddAll(processingVaults, newFill, vaultSize, SlotParticles(slots[j..])) == goal
        invariant processedVaults == old(processedVaults) && vaultSize == old(vaultSize) && extraVault == old(extraVault)
        invariant numExtraVaults == old(numExtraVaults) && extraVaultIndex == old(extraVaultIndex)
      {
        SlotParticlesFrom(slots, j);
        if slots[j].Some? {
          AddAllCons(processingVaults, newFill, vaultSize, slots[j].value, SlotParticles(slots[j + 1..]));
          // add_processing_particle, whose body this is
          var result;
          outcome, result, newFill := PutInFillVault(processingVaults, newFill, vaultSize, slots[j].value);
          processingVaults := result;
          if outcome == Panicked {
            return;
          }
        } else {
          assert SlotParticles(slots[j..]) == SlotParticles(slots[j + 1..]);
        }
        j := j + 1;
      }
      outcome := Done;
    }
  }

  /** A list of vaults of total size 0 holds no particle. */
  lemma {:induction false} EmptyListNoParticles<P>(vs: seq<Vault<P>>)
    requires TotalSize(vs) == 0
    ensures Particles(vs) == []
  {
    EveryVaultEmpty(vs);
    NoParticlesInEmptyVaults(vs);
  }

  lemma {:induction false} EveryVaultEmpty<P>(vs: seq<Vault<P>>)
    requires TotalSize(vs) == 0
    ensures forall i :: 0 <= i < |vs| ==> VaultSize(vs[i]) == 0
  {
    if vs != [] {
      var n := |vs| - 1;
      EveryVaultEmpty(vs[..n]);
      assert forall i :: 0 <= i < n ==> vs[..n][i] == vs[i];
    }
  }

  lemma {:induction false} NoParticlesInEmptyVaults<P>(vs: seq<Vault<P>>)
    requires forall i :: 0 <= i < |vs| ==> VaultSize(vs[i]) == 0
    ensures Particles(vs) == []
  {
    if vs != [] {
      EmptyVaultNoParticles(vs[0]);
      assert forall i :: 0 <= i < |vs| - 1 ==> vs[1..][i] == vs[i + 1];
      NoParticlesInEmptyVaults(vs[1..]);
    }
  }

  /** Moving the particles of the extra vaults into the processing vaults,
      when no step panics, keeps every particle and adds their count. */
  lemma MoveKeepsParticles<P>(vs: seq<Vault<P>>, vaultSize: nat, extra: seq<Vault<P>>)
    requires |vs| > 0
    ensures var r := AddAll(vs, 0, vaultSize, Particles(extra));
      r.0 == Done ==>
        multiset(Particles(r.1)) == multiset(Particles(vs)) + multiset(Particles(extra)) &&
        TotalSize(r.1) == TotalSize(vs) + TotalSize(extra)
  {
    var r := AddAll(vs, 0, vaultSize, Particles(extra));
    AddAllKeepsParticles(vs, 0, vaultSize, Particles(extra));
    ParticlesCount(extra);
    ParticlesCount(vs);
    ParticlesCount(r.1);
    if r.0 == Done {
      assert |multiset(Particles(r.1))| == |Particles(r.1)|;
    }
  }

  lemma ExtraVaultInRange(index: nat, count: nat, size: nat)
    requires size > 0 && index <= size * count
    ensures index / size <= count
    ensures index / size < count ==> index + 1 <= size * count
    ensures index / size == count ==> index + 1 <= size * (count + 1)
  {
    var q := index / size;
    assert index == size * q + index % size;
    Arith.DivBelow(index, size, count + 1);
    if q < count {
      Arith.MulMono(size, q + 1, count);
    }
  }

  /** The extra vaults after add_extra_particle: the particle appended to
      vault `vault`, which is appended first when it is one past the end. */
  function PushExtra<P>(vs: seq<Vault<P>>, vault: nat, p: P): (r: seq<Vault<P>>)
    requires vault <= |vs|
    ensures |r| == if vault < |vs| then |vs| else |vs| + 1
    ensures r[vault] == VaultAt(vs, vault) + [Some(p)]
    ensures forall k :: 0 <= k < |vs| && k != vault ==> r[k] == vs[k]
    ensures TotalSize(r) == TotalSize(vs) + 1
  {
    var grown := if vault < |vs| then vs else vs + [[]];
    TotalSizeAppend(vs, []);
    var pushed := grown[vault] + [Some(p)];
    VaultSizePrefix(pushed, |grown[vault]|);
    assert pushed[..|grown[vault]|] == grown[vault];
    TotalSizeUpdate(grown, vault, pushed);
    grown[vault := pushed]
  }
}
