/** Retrieval that doubles its pool until enough active candidates are found. */
module Doubling {
  import opened Numbers
  import opened Sequences

  /** Chunk ids, as numbers. */
  type Id = nat

  /** Active, known but inactive, or without any provenance row. */
  datatype Status = Active | Inactive | Missing

  /** What a search meets: engine rankings, the fused list for a pool size, and the state of each id. */
  datatype World = World(engines: seq<seq<Id>>, retrieve: nat -> seq<Id>, status: Id -> Status, size: nat)

  datatype Outcome = Collected(fused: seq<Id>, filtered: seq<Id>, inactive: nat) | MissingProvenance(id: Id)

  const OVERFETCH: nat := 5

  /** `_active_filter_pool_size`. */
  function PoolSize(topK: nat, pool: nat): (size: nat)
    ensures size >= pool && size >= 5 * topK && size >= topK + 50
    ensures size in {pool, 5 * topK, topK + 50}
    ensures pool >= 5 * topK && pool >= topK + 50 ==> size == pool
  {
    Max(pool, Max(topK * OVERFETCH, topK + 50))
  }

  function Top(ranking: seq<Id>, pool: nat): seq<Id> {
    if pool < |ranking| then ranking[..pool] else ranking
  }

  /**
   * Fusion lists no id twice, loses nothing an engine returned, and knows at most `size` ids in all.
   * It may add ids of its own, as graph enrichment does.
   */
  ghost predicate WellFused(w: World) {
    && (forall e | e in w.engines :: Distinct(e))
    && (forall pool: nat :: Distinct(w.retrieve(pool)) && |w.retrieve(pool)| <= w.size)
    && (forall pool: nat, e | e in w.engines :: Elements(Top(e, pool)) <= Elements(w.retrieve(pool)))
  }

  // ---- filtering ----

  function Filtered(w: World, ids: seq<Id>): seq<Id> {
    if ids == [] then []
    else
      var last := ids[|ids| - 1];
      Filtered(w, ids[..|ids| - 1]) + if w.status(last) == Active then [last] else []
  }

  ghost predicate NoneMissing(w: World, ids: seq<Id>) {
    forall id | id in ids :: w.status(id) != Missing
  }

  /** `_filter_active_fused_candidates`: an id without provenance is an error, the first one found. */
  method Filter(w: World, fused: seq<Id>) returns (o: Outcome)
    ensures o.Collected? <==> NoneMissing(w, fused)
    ensures o.Collected? ==> o.fused == fused && o.filtered == Filtered(w, fused)
    ensures o.Collected? ==> |o.filtered| + o.inactive == |fused| && AreActive(w, fused, o.filtered)
    ensures o.MissingProvenance? ==>
              exists i :: 0 <= i < |fused| && fused[i] == o.id && w.status(o.id) == Missing
                          && NoneMissing(w, fused[..i])
  {
    var filtered, inactive: nat := [], 0;
    for i := 0 to |fused|
      invariant filtered == Filtered(w, fused[..i]) && |filtered| + inactive == i
      invariant NoneMissing(w, fused[..i])
    {
      assert fused[..i + 1][..i] == fused[..i];
      assert fused[..i + 1] == fused[..i] + [fused[i]];
      match w.status(fused[i])
      case Active => filtered := filtered + [fused[i]];
      case Inactive => inactive := inactive + 1;
      case Missing => return MissingProvenance(fused[i]);
    }
    assert fused[..|fused|] == fused;
    o := Collected(fused, filtered, inactive);
    FilteredReads(w, fused);
  }

  /** The active ids of a list, in order. */
  ghost predicate AreActive(w: World, ids: seq<Id>, active: seq<Id>) {
    if ids == [] then active == []
    else if w.status(ids[0]) == Active then active != [] && active[0] == ids[0] && AreActive(w, ids[1..], active[1..])
    else AreActive(w, ids[1..], active)
  }

  lemma {:induction false} FilteredConcat(w: World, a: seq<Id>, b: seq<Id>)
    ensures Filtered(w, a + b) == Filtered(w, a) + Filtered(w, b)
  {
    if b == [] {
      assert a + b == a;
    } else {
      assert (a + b)[..|a + b| - 1] == a + b[..|b| - 1];
      FilteredConcat(w, a, b[..|b| - 1]);
    }
  }

  lemma {:induction false} FilteredReads(w: World, ids: seq<Id>)
    ensures AreActive(w, ids, Filtered(w, ids))
  {
    if ids == [] {
    } else {
      var rest := Filtered(w, ids[1..]);
      assert ids == [ids[0]] + ids[1..];
      FilteredConcat(w, [ids[0]], ids[1..]);
      assert [ids[0]][..0] == [] && Filtered(w, []) == [];
      FilteredReads(w, ids[1..]);
      if w.status(ids[0]) == Active {
        assert Filtered(w, ids) == [ids[0]] + rest && Filtered(w, ids)[1..] == rest;
      } else {
        assert Filtered(w, ids) == rest;
      }
    }
  }

  lemma {:induction false} FilteredMembers(w: World, ids: seq<Id>, id: Id)
    ensures id in Filtered(w, ids) <==> id in ids && w.status(id) == Active
  {
    if ids == [] {
    } else {
      FilteredMembers(w, ids[..|ids| - 1], id);
      assert ids == ids[..|ids| - 1] + [ids[|ids| - 1]];
    }
  }

  // ---- rounds ----

  /** Pool of round i. */
  function PoolAt(p0: nat, i: nat): nat {
    if i == 0 then p0 else 2 * PoolAt(p0, i - 1)
  }

  function FusedAt(w: World, p0: nat, i: nat): seq<Id> {
    w.retrieve(PoolAt(p0, i))
  }

  function CountBefore(w: World, p0: nat, i: nat): int {
    if i == 0 then -1 else |FusedAt(w, p0, i - 1)|
  }

  /** Round i ends in a doubling. */
  ghost predicate Continues(w: World, topK: nat, p0: nat, i: nat) {
    var fused := FusedAt(w, p0, i);
    && fused != [] && NoneMissing(w, fused)
    && |Filtered(w, fused)| < topK
    && |fused| >= PoolAt(p0, i)
    && |fused| > CountBefore(w, p0, i)
  }

  ghost predicate StopsAt(w: World, topK: nat, p0: nat, last: nat) {
    && (forall i: nat | i < last :: Continues(w, topK, p0, i))
    && !Continues(w, topK, p0, last)
  }

  /** `_collect_active_candidate_pool`: also returns the number of its last round, counted from 0. */
  method CollectActive(w: World, topK: nat, pool: nat) returns (o: Outcome, last: nat)
    requires WellFused(w)
    ensures StopsAt(w, topK, PoolSize(topK, pool), last)
    ensures o.Collected? <==> NoneMissing(w, FusedAt(w, PoolSize(topK, pool), last))
    ensures o.MissingProvenance? ==> w.status(o.id) == Missing
    ensures o.Collected? ==> o.fused == FusedAt(w, PoolSize(topK, pool), last) && o.filtered == Filtered(w, o.fused)
    ensures o.Collected? ==> |o.filtered| + o.inactive == |o.fused|
    ensures last > 0 ==> PoolAt(PoolSize(topK, pool), last - 1) <= w.size
  {
    ghost var p0 := PoolSize(topK, pool);
    var size, previous := PoolSize(topK, pool), -1;
    last := 0;
    while true
      invariant size == PoolAt(p0, last) && size > 0 && previous == CountBefore(w, p0, last)
      invariant forall i: nat | i < last :: Continues(w, topK, p0, i)
      invariant last > 0 ==> PoolAt(p0, last - 1) <= w.size
      decreases Max(p0, 2 * w.size) - size
    {
      var fused := w.retrieve(size);
      if fused == [] {
        o := Collected([], [], 0);
        return;
      }
      o := Filter(w, fused);
      if o.MissingProvenance? || |o.filtered| >= topK || |fused| < size || |fused| <= previous {
        return;
      }
      assert Continues(w, topK, p0, last);
      previous, size, last := |fused|, 2 * size, last + 1;
    }
  }

  /**
   * No round is wasted: each before the last found fewer active ids than asked for, filled its pool, which
   * has doubled with every round, and found more ids than the round before it.
   */
  lemma NoRoundIsWasted(w: World, topK: nat, p0: nat, last: nat, i: nat)
    requires StopsAt(w, topK, p0, last) && i < last
    ensures
      var pool := p0 * Power(i);
      && w.retrieve(pool) != [] && |w.retrieve(pool)| >= pool
      && (forall id | id in w.retrieve(pool) :: w.status(id) != Missing)
      && |Filtered(w, w.retrieve(pool))| < topK
      && (i > 0 ==> |w.retrieve(pool)| > |w.retrieve(p0 * Power(i - 1))|)
  {
    assert Continues(w, topK, p0, i);
    PoolIsPower(p0, i);
    if i > 0 {
      PoolIsPower(p0, i - 1);
    }
  }

  /** The rounds counted: with r of them, p0 doubled r - 2 times still fits into the ids there are. */
  lemma {:induction false} RoundsAreLogarithmic(w: World, topK: nat, p0: nat, last: nat)
    requires WellFused(w) && StopsAt(w, topK, p0, last)
    ensures last == 0 || p0 * Power(last - 1) <= w.size
  {
    if last == 0 {
    } else {
      assert Continues(w, topK, p0, last - 1);
      PoolIsPower(p0, last - 1);
    }
  }

  function Power(n: nat): nat {
    if n == 0 then 1 else 2 * Power(n - 1)
  }

  lemma {:induction false} PoolIsPower(p0: nat, i: nat)
    ensures PoolAt(p0, i) == p0 * Power(i)
  {
    if i == 0 {
    } else {
      PoolIsPower(p0, i - 1);
    }
  }

  // ---- what an exit means ----

  /** Every active id of every engine is in the filtered list. */
  ghost predicate Complete(w: World, filtered: seq<Id>) {
    forall e, id | e in w.engines && id in e && w.status(id) == Active :: id in filtered
  }

  /** A fused list shorter than the pool means that no engine had more to give. */
  lemma ShortPoolIsExhausted(w: World, pool: nat, e: seq<Id>)
    requires WellFused(w) && e in w.engines && |w.retrieve(pool)| < pool
    ensures Top(e, pool) == e && Elements(e) <= Elements(w.retrieve(pool))
  {
    DistinctCount(Top(e, pool));
    DistinctCount(w.retrieve(pool));
    SubsetCount(Elements(Top(e, pool)), Elements(w.retrieve(pool)));
  }

  lemma ShortPoolIsComplete(w: World, pool: nat)
    requires WellFused(w) && |w.retrieve(pool)| < pool
    ensures Complete(w, Filtered(w, w.retrieve(pool)))
  {
    forall e, id | e in w.engines && id in e && w.status(id) == Active
      ensures id in Filtered(w, w.retrieve(pool))
    {
      ShortPoolIsExhausted(w, pool, e);
      assert id in Elements(e);
      assert id in Elements(w.retrieve(pool)) && id in w.retrieve(pool);
      FilteredMembers(w, w.retrieve(pool), id);
    }
  }

  /**
   * A doubling finds nothing more, read off the rankings alone: every round before i fills its pool and
   * gains on the round before it, round i fills its pool too but gains nothing.
   */
  ghost predicate Stalls(w: World, p0: nat, i: nat) {
    && i > 0
    && (forall j: nat | j < i :: Gains(w, p0, j))
    && PoolAt(p0, i) <= |FusedAt(w, p0, i)| <= |FusedAt(w, p0, i - 1)|
  }

  ghost predicate Gains(w: World, p0: nat, j: nat) {
    var fused := FusedAt(w, p0, j);
    fused != [] && |fused| >= PoolAt(p0, j) && |fused| > CountBefore(w, p0, j)
  }

  /** A search stops filled, complete, on missing provenance, or in a round that stalls. */
  lemma ExitMeaning(w: World, topK: nat, p0: nat, last: nat)
    requires WellFused(w) && p0 > 0 && StopsAt(w, topK, p0, last)
    ensures
      var fused := FusedAt(w, p0, last);
      || !NoneMissing(w, fused)
      || |Filtered(w, fused)| >= topK
      || Complete(w, Filtered(w, fused))
      || Stalls(w, p0, last)
  {
    PoolIsPositive(p0, last);
    if |FusedAt(w, p0, last)| < PoolAt(p0, last) {
      ShortPoolIsComplete(w, PoolAt(p0, last));
    } else {
      forall j: nat | j < last
        ensures Gains(w, p0, j)
      {
        assert Continues(w, topK, p0, j);
      }
    }
  }

  lemma PoolIsPositive(p0: nat, i: nat)
    requires p0 > 0
    ensures PoolAt(p0, i) > 0
  {
    PoolIsPower(p0, i);
    PowerIsPositive(i);
  }

  lemma {:induction false} PowerIsPositive(n: nat)
    ensures Power(n) > 0
  {
    if n == 0 {
    } else {
      PowerIsPositive(n - 1);
    }
  }

  /** Without enrichment: the fused ids are those of the engines' tops and no others. */
  ghost predicate OnlyEngines(w: World) {
    forall pool: nat, id :: id in w.retrieve(pool) ==> exists e :: e in w.engines && id in Top(e, pool)
  }

  /** Then a doubling that gained nothing in number found no new id at all. */
  lemma NothingNew(w: World, p0: nat, i: nat)
    requires WellFused(w) && OnlyEngines(w) && |FusedAt(w, p0, i + 1)| <= |FusedAt(w, p0, i)|
    ensures Elements(FusedAt(w, p0, i + 1)) == Elements(FusedAt(w, p0, i))
  {
    var before, now := FusedAt(w, p0, i), FusedAt(w, p0, i + 1);
    forall id | id in before
      ensures id in Elements(now)
    {
      var e :| e in w.engines && id in Top(e, PoolAt(p0, i));
      assert id in Elements(Top(e, PoolAt(p0, i + 1)));
    }
    DistinctCount(before);
    DistinctCount(now);
    SubsetCount(Elements(before), Elements(now));
  }

  // ---- exactly when every search is filled or complete ----

  /** Every search of this world ends with enough active candidates or with all there are. */
  ghost predicate FillsOrCompletes(w: World, topK: nat, p0: nat) {
    forall last: nat | StopsAt(w, topK, p0, last) ::
      |Filtered(w, FusedAt(w, p0, last))| >= topK || Complete(w, Filtered(w, FusedAt(w, p0, last)))
  }

  /** The list holds all that the engines have. */
  ghost predicate Exhausts(w: World, fused: seq<Id>) {
    forall e, id | e in w.engines && id in e :: id in fused
  }

  ghost predicate NeverMissing(status: Id -> Status) {
    forall id :: status(id) != Missing
  }

  /** Larger pools list what smaller ones do. */
  lemma {:induction false} PoolsGrow(w: World, p0: nat, j: nat, i: nat, id: Id)
    requires WellFused(w) && OnlyEngines(w) && j <= i && id in FusedAt(w, p0, j)
    ensures id in FusedAt(w, p0, i)
    decreases i
  {
    if j < i {
      PoolsGrow(w, p0, j, i - 1, id);
      LargerPoolLists(w, PoolAt(p0, i - 1), PoolAt(p0, i), id);
    }
  }

  lemma LargerPoolLists(w: World, pool: nat, larger: nat, id: Id)
    requires WellFused(w) && OnlyEngines(w) && pool <= larger && id in w.retrieve(pool)
    ensures id in w.retrieve(larger)
  {
    var e :| e in w.engines && id in Top(e, pool);
    assert id in Elements(Top(e, larger));
    assert id in Elements(w.retrieve(larger));
  }

  /** In a world whose one active id is not yet listed when round i stalls, the search stops there with nothing. */
  lemma StallMissesId(w: World, topK: nat, p0: nat, i: nat, id: Id)
    requires WellFused(w) && OnlyEngines(w) && topK > 0 && Stalls(w, p0, i) && id !in FusedAt(w, p0, i)
    requires forall d :: w.status(d) == if d == id then Active else Inactive
    ensures StopsAt(w, topK, p0, i) && Filtered(w, FusedAt(w, p0, i)) == []
  {
    forall j: nat | j <= i
      ensures NoneMissing(w, FusedAt(w, p0, j)) && Filtered(w, FusedAt(w, p0, j)) == []
    {
      if id in FusedAt(w, p0, j) {
        PoolsGrow(w, p0, j, i, id);
      }
      NoneActive(w, FusedAt(w, p0, j));
    }
    forall j: nat | j < i
      ensures Continues(w, topK, p0, j)
    {
      assert Gains(w, p0, j);
    }
  }

  lemma {:induction false} NoneActive(w: World, ids: seq<Id>)
    requires forall id | id in ids :: w.status(id) == Inactive
    ensures NoneMissing(w, ids) && Filtered(w, ids) == []
  {
    if ids == [] {
    } else {
      NoneActive(w, ids[..|ids| - 1]);
    }
  }

  /** Where stalling rounds exhaust the engines, every search without missing provenance is as it should be. */
  lemma ExhaustedStallsAreHarmless(w: World, topK: nat, p0: nat)
    requires WellFused(w) && p0 > 0 && NeverMissing(w.status)
    requires forall i: nat | Stalls(w, p0, i) :: Exhausts(w, FusedAt(w, p0, i))
    ensures FillsOrCompletes(w, topK, p0)
  {
    forall last: nat | StopsAt(w, topK, p0, last)
      ensures |Filtered(w, FusedAt(w, p0, last))| >= topK || Complete(w, Filtered(w, FusedAt(w, p0, last)))
    {
      ExitMeaning(w, topK, p0, last);
      if Stalls(w, p0, last) {
        forall e, id | e in w.engines && id in e && w.status(id) == Active
          ensures id in Filtered(w, FusedAt(w, p0, last))
        {
          FilteredMembers(w, FusedAt(w, p0, last), id);
        }
      }
    }
  }

  /**
   * Without enrichment, whatever is active: every search is filled or complete if and only if no round that
   * stalls leaves an id of an engine out. The condition is about the rankings alone.
   */
  lemma FillsOrCompletesExactly(w: World, topK: nat, p0: nat)
    requires WellFused(w) && OnlyEngines(w) && topK > 0 && p0 > 0
    ensures (forall status | NeverMissing(status) :: FillsOrCompletes(w.(status := status), topK, p0))
       <==> (forall i: nat | Stalls(w, p0, i) :: Exhausts(w, FusedAt(w, p0, i)))
  {
    if forall i: nat | Stalls(w, p0, i) :: Exhausts(w, FusedAt(w, p0, i)) {
      forall status | NeverMissing(status)
        ensures FillsOrCompletes(w.(status := status), topK, p0)
      {
        SameRankings(w, status, p0);
        ExhaustedStallsAreHarmless(w.(status := status), topK, p0);
      }
    } else {
      var i: nat :| Stalls(w, p0, i) && !Exhausts(w, FusedAt(w, p0, i));
      var e, id :| e in w.engines && id in e && id !in FusedAt(w, p0, i);
      var status := d => if d == id then Active else Inactive;
      var v := w.(status := status);
      SameRankings(w, status, p0);
      StallMissesId(v, topK, p0, i, id);
      assert NeverMissing(status) && v.status(id) == Active && e in v.engines;
      assert !Complete(v, Filtered(v, FusedAt(v, p0, i)));
    }
  }

  /** Which ids are active plays no part in the rankings. */
  lemma SameRankings(w: World, status: Id -> Status, p0: nat)
    requires WellFused(w)
    ensures
      var v := w.(status := status);
      && WellFused(v) && (OnlyEngines(w) ==> OnlyEngines(v))
      && (forall i: nat :: Stalls(v, p0, i) <==> Stalls(w, p0, i))
      && (forall i: nat :: FusedAt(v, p0, i) == FusedAt(w, p0, i))
  {
    var v := w.(status := status);
    forall j: nat
      ensures Gains(v, p0, j) <==> Gains(w, p0, j)
    {
    }
  }

  /** One engine never stalls: doubling gains until the engine ends. */
  lemma SingleEngineNeverStalls(w: World, p0: nat, i: nat)
    requires WellFused(w) && OnlyEngines(w) && |w.engines| == 1 && p0 > 0
    ensures !Stalls(w, p0, i)
  {
    if Stalls(w, p0, i) {
      SingleEngineCount(w, PoolAt(p0, i));
      SingleEngineCount(w, PoolAt(p0, i - 1));
      PoolIsPositive(p0, i - 1);
      assert false;
    }
  }

  /** One engine: the result is filled or complete. */
  lemma SingleEngineFillsOrCompletes(w: World, topK: nat, p0: nat, last: nat)
    requires WellFused(w) && OnlyEngines(w) && |w.engines| == 1 && p0 > 0 && StopsAt(w, topK, p0, last)
    ensures
      var fused := FusedAt(w, p0, last);
      !NoneMissing(w, fused) || |Filtered(w, fused)| >= topK || Complete(w, Filtered(w, fused))
  {
    ExitMeaning(w, topK, p0, last);
    SingleEngineNeverStalls(w, p0, last);
  }

  lemma SingleEngineCount(w: World, pool: nat)
    requires WellFused(w) && OnlyEngines(w) && |w.engines| == 1
    ensures |w.retrieve(pool)| == |Top(w.engines[0], pool)|
  {
    var e := w.engines[0];
    assert Elements(w.retrieve(pool)) == Elements(Top(e, pool));
    DistinctCount(w.retrieve(pool));
    DistinctCount(Top(e, pool));
  }

  // ---- two engines can miss an active candidate ----

  function Range(from: nat, n: nat): (r: seq<Id>)
    ensures |r| == n && forall i | 0 <= i < n :: r[i] == from + i
  {
    seq(n, i requires 0 <= i < n => from + i)
  }

  /** Fusion of two rankings: the first list, then what the second adds. */
  function Fuse(a: seq<Id>, b: seq<Id>): (r: seq<Id>)
    requires Distinct(a) && Distinct(b)
    ensures Distinct(r) && Elements(r) == Elements(a) + Elements(b)
  {
    if b == [] then a
    else
      var r := Fuse(a, b[..|b| - 1]);
      var last := b[|b| - 1];
      assert b == b[..|b| - 1] + [last];
      assert Elements(b) == Elements(b[..|b| - 1]) + {last};
      assert Elements(r + [last]) == Elements(r) + {last};
      if last in r then r else r + [last]
  }

  function TwoEngines(a: seq<Id>, b: seq<Id>, active: Id, size: nat): World
    requires Distinct(a) && Distinct(b)
  {
    World([a, b], pool => Fuse(Top(a, pool), Top(b, pool)), id => if id == active then Active else Inactive, size)
  }

  lemma TwoEnginesFuse(a: seq<Id>, b: seq<Id>, active: Id, size: nat, pool: nat)
    requires Distinct(a) && Distinct(b) && Elements(a) + Elements(b) <= Elements(Range(0, size))
    ensures
      var fused := TwoEngines(a, b, active, size).retrieve(pool);
      && Distinct(fused) && |fused| <= size
      && Elements(fused) == Elements(Top(a, pool)) + Elements(Top(b, pool))
  {
    var fused := Fuse(Top(a, pool), Top(b, pool));
    DistinctCount(fused);
    DistinctCount(Range(0, size));
    SubsetCount(Elements(fused), Elements(Range(0, size)));
  }

  lemma TwoEnginesAreFused(a: seq<Id>, b: seq<Id>, active: Id, size: nat)
    requires Distinct(a) && Distinct(b) && Elements(a) + Elements(b) <= Elements(Range(0, size))
    ensures WellFused(TwoEngines(a, b, active, size)) && OnlyEngines(TwoEngines(a, b, active, size))
  {
    var w := TwoEngines(a, b, active, size);
    assert w.engines[0] == a && w.engines[1] == b;
    forall pool: nat
      ensures Distinct(w.retrieve(pool)) && |w.retrieve(pool)| <= w.size
      ensures Elements(w.retrieve(pool)) == Elements(Top(a, pool)) + Elements(Top(b, pool))
    {
      TwoEnginesFuse(a, b, active, size, pool);
    }
    forall pool: nat, id | id in w.retrieve(pool)
      ensures exists e :: e in w.engines && id in Top(e, pool)
    {
      assert id in Elements(w.retrieve(pool));
      assert a in w.engines && b in w.engines;
      if id in Elements(Top(a, pool)) {
        assert id in Top(a, pool);
      } else {
        assert id in Top(b, pool);
      }
    }
  }

  /** 2n ids and one behind them; the other ranking swaps the two halves. */
  function RankingA(n: nat): (r: seq<Id>)
    ensures Distinct(r) && |r| == 2 * n + 1
    ensures forall i | 0 <= i < |r| :: r[i] == i
  {
    Range(0, 2 * n + 1)
  }

  function RankingB(n: nat): (r: seq<Id>)
    ensures Distinct(r) && |r| == 2 * n + 1
    ensures forall i | 0 <= i < n :: r[i] == n + i
    ensures forall i | n <= i < 2 * n :: r[i] == i - n
    ensures r[2 * n] == 2 * n
  {
    Range(n, n) + Range(0, n) + [2 * n]
  }

  lemma RankingsKnow(n: nat)
    ensures Elements(RankingA(n)) + Elements(RankingB(n)) <= Elements(Range(0, 2 * n + 1))
  {
    forall id | id in RankingB(n)
      ensures id in Range(0, 2 * n + 1)
    {
      assert Range(0, 2 * n + 1)[id] == id;
    }
  }

  /** With a pool of n as with one of 2n, the two tops hold the ids below 2n and no others. */
  lemma TopsHold(n: nat, pool: nat)
    requires pool == n || pool == 2 * n
    ensures Elements(Top(RankingA(n), pool)) + Elements(Top(RankingB(n), pool)) == Elements(Range(0, 2 * n))
  {
    var a, b := Top(RankingA(n), pool), Top(RankingB(n), pool);
    forall id: Id
      ensures id in Elements(a) + Elements(b) <==> id in Elements(Range(0, 2 * n))
    {
      if id < n {
        assert a[id] == id && Range(0, 2 * n)[id] == id;
      } else if id < 2 * n {
        assert b[id - n] == id && Range(0, 2 * n)[id] == id;
      }
    }
  }

  /** The rounds with pools n and 2n list the same 2n ids. */
  lemma HalvesStall(n: nat, w: World)
    requires n > 0 && w == TwoEngines(RankingA(n), RankingB(n), 2 * n, 2 * n + 1)
    ensures Stalls(w, n, 1) && 2 * n !in FusedAt(w, n, 1)
  {
    assert PoolAt(n, 0) == n && PoolAt(n, 1) == 2 * n;
    HalvesRound(n, n, w);
    HalvesRound(n, 2 * n, w);
    assert Gains(w, n, 0);
  }

  lemma HalvesRound(n: nat, pool: nat, w: World)
    requires w == TwoEngines(RankingA(n), RankingB(n), 2 * n, 2 * n + 1) && (pool == n || pool == 2 * n)
    ensures |w.retrieve(pool)| == 2 * n && 2 * n !in w.retrieve(pool)
  {
    var fused := w.retrieve(pool);
    RankingsKnow(n);
    TwoEnginesFuse(RankingA(n), RankingB(n), 2 * n, 2 * n + 1, pool);
    TopsHold(n, pool);
    SameElementsAsRange(fused, 2 * n);
  }

  lemma SameElementsAsRange(ids: seq<Id>, n: nat)
    requires Distinct(ids) && Elements(ids) == Elements(Range(0, n))
    ensures |ids| == n && n !in ids
  {
    DistinctCount(ids);
    DistinctCount(Range(0, n));
    assert n in ids ==> n in Elements(ids);
  }

  ghost predicate HoldsActive(w: World, e: seq<Id>) {
    exists id :: id in e && w.status(id) == Active
  }

  lemma ActiveBehind(n: nat, w: World)
    requires w.engines == [RankingA(n), RankingB(n)] && w.status(2 * n) == Active
    ensures forall e | e in w.engines :: HoldsActive(w, e)
  {
    assert RankingA(n)[2 * n] == 2 * n && RankingB(n)[2 * n] == 2 * n;
  }

  /**
   * The third exit loses results. Whatever is asked for, there are two engines, each with an active
   * candidate behind 2n inactive ones, for which the search stops in its second round without it.
   */
  lemma TwoEnginesMissAnActive(topK: nat, pool: nat) returns (w: World)
    requires topK > 0
    ensures WellFused(w) && OnlyEngines(w) && |w.engines| == 2
    ensures StopsAt(w, topK, PoolSize(topK, pool), 1)
    ensures Filtered(w, FusedAt(w, PoolSize(topK, pool), 1)) == []
    ensures forall e | e in w.engines :: HoldsActive(w, e)
  {
    var n := PoolSize(topK, pool);
    w := TwoEngines(RankingA(n), RankingB(n), 2 * n, 2 * n + 1);
    RankingsKnow(n);
    TwoEnginesAreFused(RankingA(n), RankingB(n), 2 * n, 2 * n + 1);
    HalvesStall(n, w);
    StallMissesId(w, topK, n, 1, 2 * n);
    ActiveBehind(n, w);
  }
}
