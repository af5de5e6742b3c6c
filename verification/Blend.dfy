/** Blending reranker scores with fusion scores. */
module Blend {

  datatype Scored = Scored(id: string, score: real)

  predicate HasId(xs: seq<Scored>, id: string) {
    exists x | x in xs :: x.id == id
  }

  function Scores(xs: seq<Scored>): (ss: seq<real>)
    ensures |ss| == |xs| && forall i | 0 <= i < |xs| :: ss[i] == xs[i].score
  {
    seq(|xs|, i requires 0 <= i < |xs| => xs[i].score)
  }

  ghost predicate DistinctIds(xs: seq<Scored>) {
    forall i, j | 0 <= i < j < |xs| :: xs[i].id != xs[j].id
  }

  function MinOf(ss: seq<real>): (m: real)
    requires ss != []
    ensures m in ss && forall i | 0 <= i < |ss| :: m <= ss[i]
  {
    if |ss| == 1 then ss[0]
    else
      var rest := MinOf(ss[1..]);
      assert forall i | 1 <= i < |ss| :: ss[i] == ss[1..][i - 1];
      if ss[0] <= rest then ss[0] else rest
  }

  function MaxOf(ss: seq<real>): (m: real)
    requires ss != []
    ensures m in ss && forall i | 0 <= i < |ss| :: m >= ss[i]
  {
    if |ss| == 1 then ss[0]
    else
      var rest := MaxOf(ss[1..]);
      assert forall i | 1 <= i < |ss| :: ss[i] == ss[1..][i - 1];
      if ss[0] >= rest then ss[0] else rest
  }

  /** Min-max normalisation; a range of zero counts as one. */
  function Norm(x: real, lo: real, hi: real): real {
    (x - lo) / if hi > lo then hi - lo else 1.0
  }

  lemma NormInUnit(x: real, lo: real, hi: real)
    requires lo <= x <= hi
    ensures 0.0 <= Norm(x, lo, hi) <= 1.0
  {
    if hi > lo {
      var r := hi - lo;
      assert (x - lo) / r * r == x - lo;
    }
  }

  lemma NormRises(x: real, y: real, lo: real, hi: real)
    requires lo <= x <= y <= hi
    ensures Norm(x, lo, hi) <= Norm(y, lo, hi)
    ensures x < y ==> Norm(x, lo, hi) < Norm(y, lo, hi)
  {
    if hi > lo {
      var r := hi - lo;
      assert (y - lo) / r - (x - lo) / r == (y - x) / r;
      assert (y - x) / r * r == y - x;
    }
  }

  /** `dict(fused)`: the last score given for an id. */
  function ScoreOf(fused: seq<Scored>, id: string): (s: real)
    requires HasId(fused, id)
    ensures Scored(id, s) in fused
    ensures exists i :: 0 <= i < |fused| && fused[i] == Scored(id, s) && forall j | i < j < |fused| :: fused[j].id != id
  {
    var init, last := fused[..|fused| - 1], fused[|fused| - 1];
    assert fused == init + [last];
    if last.id == id then
      assert fused[|fused| - 1] == Scored(id, last.score);
      last.score
    else ScoreOf(init, id)
  }

  /** Fusion scores of the reranked items that have one. */
  function FusedValues(fused: seq<Scored>, reranked: seq<Scored>): (vs: seq<real>)
    ensures forall x | x in reranked && HasId(fused, x.id) :: ScoreOf(fused, x.id) in vs
    ensures forall v | v in vs :: exists x :: x in reranked && HasId(fused, x.id) && ScoreOf(fused, x.id) == v
  {
    if reranked == [] then []
    else
      var init, last := reranked[..|reranked| - 1], reranked[|reranked| - 1];
      assert reranked == init + [last];
      FusedValues(fused, init) + if HasId(fused, last.id) then [ScoreOf(fused, last.id)] else []
  }

  /** The bounds the normalisation uses. */
  datatype Bounds = Bounds(reMin: real, reMax: real, fusedMin: real, fusedMax: real)

  function BoundsOf(fused: seq<Scored>, reranked: seq<Scored>): (b: Bounds)
    requires reranked != []
    ensures Bounding(fused, b, reranked) && Attained(fused, b, reranked)
  {
    var re, vs := Scores(reranked), FusedValues(fused, reranked);
    assert forall i | 0 <= i < |reranked| :: re[i] == reranked[i].score;
    Bounds(MinOf(re), MaxOf(re), if vs != [] then MinOf(vs) else 0.0, if vs != [] then MaxOf(vs) else 1.0)
  }

  /** Some reranked items have the bounds as scores; without any fusion score these bounds are 0 and 1. */
  ghost predicate Attained(fused: seq<Scored>, b: Bounds, reranked: seq<Scored>) {
    && (exists x :: x in reranked && x.score == b.reMin)
    && (exists x :: x in reranked && x.score == b.reMax)
    && if exists x :: x in reranked && HasId(fused, x.id) then
         && (exists x :: x in reranked && HasId(fused, x.id) && ScoreOf(fused, x.id) == b.fusedMin)
         && (exists x :: x in reranked && HasId(fused, x.id) && ScoreOf(fused, x.id) == b.fusedMax)
       else b.fusedMin == 0.0 && b.fusedMax == 1.0
  }

  /** Every reranked item's two scores lie within the bounds. */
  ghost predicate Bounding(fused: seq<Scored>, b: Bounds, reranked: seq<Scored>) {
    forall x | x in reranked ::
      b.reMin <= x.score <= b.reMax && b.fusedMin <= RawFused(fused, b, x.id) <= b.fusedMax
  }

  function RawFused(fused: seq<Scored>, b: Bounds, id: string): real {
    if HasId(fused, id) then ScoreOf(fused, id) else b.fusedMin
  }

  function BlendedScore(fused: seq<Scored>, b: Bounds, x: Scored): real {
    0.4 * Norm(RawFused(fused, b, x.id), b.fusedMin, b.fusedMax) + 0.6 * Norm(x.score, b.reMin, b.reMax)
  }

  /** The extremes of the blend: the reranker weighs six tenths, fusion four. */
  lemma ExtremesOfBlend(fused: seq<Scored>, b: Bounds, x: Scored)
    requires b.reMin < b.reMax && b.fusedMin < b.fusedMax
    ensures
      var raw, s := RawFused(fused, b, x.id), BlendedScore(fused, b, x);
      && (x.score == b.reMax && raw == b.fusedMax ==> s == 1.0)
      && (x.score == b.reMax && raw == b.fusedMin ==> s == 0.6)
      && (x.score == b.reMin && raw == b.fusedMax ==> s == 0.4)
      && (x.score == b.reMin && raw == b.fusedMin ==> s == 0.0)
  {
    NormAtBounds(b.reMin, b.reMax);
    NormAtBounds(b.fusedMin, b.fusedMax);
  }

  /**
   * The blend is linear: an item p of the way up the reranker's range and q up fusion's scores 0.6 p + 0.4 q;
   * a range of zero, and a missing fusion score, count as nothing.
   */
  lemma BlendIsLinear(fused: seq<Scored>, b: Bounds, x: Scored, p: real, q: real)
    requires x.score == b.reMin + p * (b.reMax - b.reMin) && b.reMin <= b.reMax && b.fusedMin <= b.fusedMax
    requires HasId(fused, x.id) ==> ScoreOf(fused, x.id) == b.fusedMin + q * (b.fusedMax - b.fusedMin)
    ensures BlendedScore(fused, b, x) ==
            (if b.reMin < b.reMax then 0.6 * p else 0.0)
            + (if b.fusedMin < b.fusedMax && HasId(fused, x.id) then 0.4 * q else 0.0)
  {
    NormIsLinear(b.reMin, b.reMax, p);
    if HasId(fused, x.id) {
      NormIsLinear(b.fusedMin, b.fusedMax, q);
    } else {
      NormAtLow(b.fusedMin, b.fusedMax);
    }
    BlendOfParts(fused, b, x, if b.fusedMin < b.fusedMax && HasId(fused, x.id) then q else 0.0,
                 if b.reMin < b.reMax then p else 0.0);
  }

  lemma BlendOfParts(fused: seq<Scored>, b: Bounds, x: Scored, u: real, v: real)
    requires Norm(RawFused(fused, b, x.id), b.fusedMin, b.fusedMax) == u && Norm(x.score, b.reMin, b.reMax) == v
    ensures BlendedScore(fused, b, x) == 0.6 * v + 0.4 * u
  {
  }

  lemma NormAtLow(lo: real, hi: real)
    ensures Norm(lo, lo, hi) == 0.0
  {
  }

  lemma NormIsLinear(lo: real, hi: real, p: real)
    requires lo <= hi
    ensures Norm(lo + p * (hi - lo), lo, hi) == if lo < hi then p else 0.0
  {
    if lo < hi {
      Cancel(p, hi - lo);
    }
  }

  lemma Cancel(p: real, r: real)
    requires r > 0.0
    ensures p * r / r == p
  {
  }

  lemma NormAtBounds(lo: real, hi: real)
    requires lo < hi
    ensures Norm(lo, lo, hi) == 0.0 && Norm(hi, lo, hi) == 1.0
  {
    var r := hi - lo;
    OneWhole(r);
    assert Norm(hi, lo, hi) == r / r;
  }

  lemma OneWhole(r: real)
    requires r > 0.0
    ensures r / r == 1.0
  {
  }

  /** Reranked items with blended scores. */
  function Reranked(fused: seq<Scored>, b: Bounds, xs: seq<Scored>): (r: seq<Scored>)
    ensures |r| == |xs|
    ensures forall i | 0 <= i < |xs| :: r[i] == Scored(xs[i].id, BlendedScore(fused, b, xs[i]))
  {
    seq(|xs|, i requires 0 <= i < |xs| => Scored(xs[i].id, BlendedScore(fused, b, xs[i])))
  }

  /** Fused items the reranker did not score, as they are. */
  function Unscored(fused: seq<Scored>, reranked: seq<Scored>): seq<Scored> {
    if fused == [] then []
    else
      var last := fused[|fused| - 1];
      Unscored(fused[..|fused| - 1], reranked) + if HasId(reranked, last.id) then [] else [last]
  }

  /** The items whose ids the reranker did not return, in order. */
  ghost predicate AreUnscored(fused: seq<Scored>, reranked: seq<Scored>, rest: seq<Scored>) {
    if fused == [] then rest == []
    else if exists x :: x in reranked && x.id == fused[0].id then AreUnscored(fused[1..], reranked, rest)
    else rest != [] && rest[0] == fused[0] && AreUnscored(fused[1..], reranked, rest[1..])
  }

  lemma {:induction false} UnscoredConcat(a: seq<Scored>, b: seq<Scored>, reranked: seq<Scored>)
    ensures Unscored(a + b, reranked) == Unscored(a, reranked) + Unscored(b, reranked)
  {
    if b == [] {
      assert a + b == a;
    } else {
      assert (a + b)[..|a + b| - 1] == a + b[..|b| - 1];
      UnscoredConcat(a, b[..|b| - 1], reranked);
    }
  }

  lemma {:induction false} UnscoredReads(fused: seq<Scored>, reranked: seq<Scored>)
    ensures AreUnscored(fused, reranked, Unscored(fused, reranked))
  {
    if fused == [] {
    } else {
      var rest := Unscored(fused[1..], reranked);
      assert fused == [fused[0]] + fused[1..];
      UnscoredConcat([fused[0]], fused[1..], reranked);
      assert [fused[0]][..0] == [] && Unscored([], reranked) == [];
      UnscoredReads(fused[1..], reranked);
      if HasId(reranked, fused[0].id) {
        assert Unscored(fused, reranked) == rest;
      } else {
        assert Unscored(fused, reranked) == [fused[0]] + rest && Unscored(fused, reranked)[1..] == rest;
      }
    }
  }

  lemma {:induction false} UnscoredMembers(fused: seq<Scored>, reranked: seq<Scored>, x: Scored)
    ensures x in Unscored(fused, reranked) <==> x in fused && !HasId(reranked, x.id)
  {
    if fused == [] {
    } else {
      var init, last := fused[..|fused| - 1], fused[|fused| - 1];
      UnscoredMembers(init, reranked, x);
      assert x in fused <==> x in init || x == last by {
        assert fused == init + [last];
      }
    }
  }

  // ---- sorting ----

  ghost predicate Descending(xs: seq<Scored>) {
    forall i, j | 0 <= i < j < |xs| :: xs[i].score >= xs[j].score
  }

  /** Before the first item that scores no higher. */
  function Insert(x: Scored, xs: seq<Scored>): seq<Scored> {
    if xs == [] || x.score >= xs[0].score then [x] + xs else [xs[0]] + Insert(x, xs[1..])
  }

  /** `sort(key=score, reverse=True)`: descending, equal scores in their old order. */
  function Sorted(xs: seq<Scored>): seq<Scored> {
    if xs == [] then [] else Insert(xs[0], Sorted(xs[1..]))
  }

  lemma {:induction false} InsertMembers(x: Scored, xs: seq<Scored>, y: Scored)
    ensures y in Insert(x, xs) <==> y == x || y in xs
  {
    if xs != [] && x.score < xs[0].score {
      InsertMembers(x, xs[1..], y);
      assert y in xs <==> y == xs[0] || y in xs[1..];
    }
  }

  lemma {:induction false} SortedMembers(xs: seq<Scored>, y: Scored)
    ensures y in Sorted(xs) <==> y in xs
  {
    if xs == [] {
    } else {
      SortedMembers(xs[1..], y);
      InsertMembers(xs[0], Sorted(xs[1..]), y);
      assert y in xs <==> y == xs[0] || y in xs[1..];
    }
  }

  lemma Prepend(x: Scored, xs: seq<Scored>)
    requires Descending(xs) && forall y | y in xs :: x.score >= y.score
    ensures Descending([x] + xs)
  {
  }

  lemma HeadIsHighest(xs: seq<Scored>)
    requires Descending(xs) && xs != []
    ensures Descending(xs[1..]) && forall y | y in xs :: xs[0].score >= y.score
  {
  }

  lemma {:induction false} InsertDescends(x: Scored, xs: seq<Scored>)
    requires Descending(xs)
    ensures Descending(Insert(x, xs))
  {
    if xs == [] {
      Prepend(x, xs);
    } else {
      HeadIsHighest(xs);
      if x.score >= xs[0].score {
        Prepend(x, xs);
      } else {
        InsertDescends(x, xs[1..]);
        forall y | y in Insert(x, xs[1..])
          ensures xs[0].score >= y.score
        {
          InsertMembers(x, xs[1..], y);
        }
        Prepend(xs[0], Insert(x, xs[1..]));
      }
    }
  }

  lemma {:induction false} SortedDescends(xs: seq<Scored>)
    ensures Descending(Sorted(xs))
  {
    if xs == [] {
    } else {
      SortedDescends(xs[1..]);
      InsertDescends(xs[0], Sorted(xs[1..]));
    }
  }

  /** The items of one score, in order. */
  function WithScore(xs: seq<Scored>, s: real): seq<Scored> {
    if xs == [] then [] else Selected(xs[0], s) + WithScore(xs[1..], s)
  }

  function Selected(x: Scored, s: real): seq<Scored> {
    if x.score == s then [x] else []
  }

  lemma DifferentScoresSwap(x: Scored, y: Scored, rest: seq<Scored>, s: real)
    requires x.score != y.score
    ensures Selected(x, s) + (Selected(y, s) + rest) == Selected(y, s) + (Selected(x, s) + rest)
  {
    if x.score == s {
      assert Selected(y, s) + (Selected(x, s) + rest) == Selected(x, s) + rest;
    } else {
      assert Selected(x, s) + (Selected(y, s) + rest) == Selected(y, s) + rest;
    }
  }

  lemma WithScoreCons(x: Scored, xs: seq<Scored>, s: real)
    ensures WithScore([x] + xs, s) == Selected(x, s) + WithScore(xs, s)
  {
    assert ([x] + xs)[1..] == xs;
  }

  lemma {:induction false} InsertIsStable(x: Scored, xs: seq<Scored>, s: real)
    ensures WithScore(Insert(x, xs), s) == WithScore([x] + xs, s)
  {
    if xs != [] && x.score < xs[0].score {
      var first, rest := xs[0], xs[1..];
      InsertIsStable(x, rest, s);
      WithScoreCons(first, Insert(x, rest), s);
      WithScoreCons(x, rest, s);
      WithScoreCons(x, xs, s);
      DifferentScoresSwap(x, first, WithScore(rest, s), s);
    }
  }

  lemma {:induction false} SortIsStable(xs: seq<Scored>, s: real)
    ensures WithScore(Sorted(xs), s) == WithScore(xs, s)
  {
    if xs == [] {
    } else {
      SortIsStable(xs[1..], s);
      InsertIsStable(xs[0], Sorted(xs[1..]), s);
      WithScoreCons(xs[0], Sorted(xs[1..]), s);
    }
  }

  // ---- the blend ----

  /** The unsorted blend: reranked items first, then the fused items that were not scored. */
  function Blended(fused: seq<Scored>, b: Bounds, reranked: seq<Scored>): seq<Scored> {
    Reranked(fused, b, reranked) + Unscored(fused, reranked)
  }

  /**
   * The result is in descending order of score, with equal scores in this order: the reranked items with
   * their blended scores, then the fused items that the reranker did not return, unchanged.
   */
  ghost predicate IsBlend(fused: seq<Scored>, reranked: seq<Scored>, result: seq<Scored>)
    requires reranked != []
  {
    && Descending(result)
    && exists rest ::
         && AreUnscored(fused, reranked, rest)
         && forall s ::
              WithScore(result, s) == WithScore(Reranked(fused, BoundsOf(fused, reranked), reranked) + rest, s)
  }

  lemma UnscoredStep(fused: seq<Scored>, reranked: seq<Scored>, i: nat)
    requires i < |fused|
    ensures Unscored(fused[..i + 1], reranked) ==
            Unscored(fused[..i], reranked) + if HasId(reranked, fused[i].id) then [] else [fused[i]]
  {
    assert fused[..i + 1][..i] == fused[..i];
  }

  method ScoreReranked(fused: seq<Scored>, b: Bounds, reranked: seq<Scored>) returns (blended: seq<Scored>)
    ensures blended == Reranked(fused, b, reranked)
  {
    blended := [];
    for i := 0 to |reranked|
      invariant blended == Reranked(fused, b, reranked)[..i]
    {
      blended := blended + [Scored(reranked[i].id, BlendedScore(fused, b, reranked[i]))];
    }
  }

  method AppendUnscored(fused: seq<Scored>, reranked: seq<Scored>, scored: seq<Scored>) returns (blended: seq<Scored>)
    ensures blended == scored + Unscored(fused, reranked)
  {
    blended := scored;
    for i := 0 to |fused|
      invariant blended == scored + Unscored(fused[..i], reranked)
    {
      UnscoredStep(fused, reranked, i);
      if !HasId(reranked, fused[i].id) {
        blended := blended + [fused[i]];
      }
    }
    assert fused[..|fused|] == fused;
  }

  /** The blending part of `_execute_search`: a reranker that returns nothing leaves the fused list. */
  method BlendRerank(fused: seq<Scored>, reranked: seq<Scored>) returns (result: seq<Scored>)
    ensures result == if reranked == [] then fused else Sorted(Blended(fused, BoundsOf(fused, reranked), reranked))
    ensures reranked != [] ==> IsBlend(fused, reranked, result)
  {
    if reranked == [] {
      return fused;
    }
    var scored := ScoreReranked(fused, BoundsOf(fused, reranked), reranked);
    var blended := AppendUnscored(fused, reranked, scored);
    result := Sorted(blended);
    SortedDescends(blended);
    UnscoredReads(fused, reranked);
    forall s
      ensures WithScore(result, s) == WithScore(blended, s)
    {
      SortIsStable(blended, s);
    }
  }

  // ---- what it promises ----

  /** How often an id occurs. */
  function Count(xs: seq<Scored>, id: string): nat {
    if xs == [] then 0 else (if xs[0].id == id then 1 else 0) + Count(xs[1..], id)
  }

  /** One list is a permutation of the other, as far as ids go. */
  ghost predicate SameIds(xs: seq<Scored>, ys: seq<Scored>) {
    forall id :: Count(xs, id) == Count(ys, id)
  }

  lemma {:induction false} CountConcat(xs: seq<Scored>, ys: seq<Scored>, id: string)
    ensures Count(xs + ys, id) == Count(xs, id) + Count(ys, id)
  {
    if xs == [] {
      assert xs + ys == ys;
    } else {
      assert (xs + ys)[1..] == xs[1..] + ys;
      CountConcat(xs[1..], ys, id);
    }
  }

  lemma {:induction false} CountOfAbsent(xs: seq<Scored>, id: string)
    ensures Count(xs, id) > 0 <==> HasId(xs, id)
  {
    if xs == [] {
    } else {
      CountOfAbsent(xs[1..], id);
      assert xs == [xs[0]] + xs[1..];
    }
  }

  lemma {:induction false} CountOfInsert(x: Scored, xs: seq<Scored>, id: string)
    ensures Count(Insert(x, xs), id) == Count([x] + xs, id)
  {
    assert ([x] + xs)[1..] == xs;
    if xs != [] && x.score < xs[0].score {
      CountOfInsert(x, xs[1..], id);
      assert ([xs[0]] + Insert(x, xs[1..]))[1..] == Insert(x, xs[1..]);
      assert ([x] + xs[1..])[1..] == xs[1..];
    }
  }

  lemma {:induction false} CountOfSorted(xs: seq<Scored>, id: string)
    ensures Count(Sorted(xs), id) == Count(xs, id)
  {
    if xs == [] {
    } else {
      CountOfSorted(xs[1..], id);
      var sorted := Sorted(xs[1..]);
      CountOfInsert(xs[0], sorted, id);
      assert ([xs[0]] + sorted)[1..] == sorted;
    }
  }

  lemma {:induction false} CountOfReranked(fused: seq<Scored>, b: Bounds, xs: seq<Scored>, id: string)
    ensures Count(Reranked(fused, b, xs), id) == Count(xs, id)
  {
    if xs == [] {
    } else {
      CountOfReranked(fused, b, xs[1..], id);
      assert Reranked(fused, b, xs)[1..] == Reranked(fused, b, xs[1..]);
    }
  }

  lemma CountOfOne(x: Scored, id: string)
    ensures Count([x], id) == if x.id == id then 1 else 0
  {
    assert [x][1..] == [];
  }

  lemma {:induction false} CountOfUnscored(fused: seq<Scored>, reranked: seq<Scored>, id: string)
    ensures Count(Unscored(fused, reranked), id) == if HasId(reranked, id) then 0 else Count(fused, id)
  {
    if fused == [] {
    } else {
      var init, last := fused[..|fused| - 1], fused[|fused| - 1];
      CountOfUnscored(init, reranked, id);
      CountConcat(init, [last], id);
      CountOfOne(last, id);
      assert Count(fused, id) == Count(init, id) + Count([last], id) by {
        assert fused == init + [last];
      }
      CountConcat(Unscored(init, reranked), [last], id);
      if HasId(reranked, last.id) {
        assert Unscored(fused, reranked) == Unscored(init, reranked);
      }
    }
  }

  /** Whatever the reranker returns, every id it returned stays as often and no other fused id is lost. */
  lemma BlendKeepsIds(fused: seq<Scored>, b: Bounds, reranked: seq<Scored>, id: string)
    ensures Count(Sorted(Blended(fused, b, reranked)), id)
         == if HasId(reranked, id) then Count(reranked, id) else Count(fused, id)
  {
    CountOfSorted(Blended(fused, b, reranked), id);
    CountConcat(Reranked(fused, b, reranked), Unscored(fused, reranked), id);
    CountOfReranked(fused, b, reranked, id);
    CountOfUnscored(fused, reranked, id);
    CountOfAbsent(reranked, id);
  }

  lemma {:induction false} DistinctCount(xs: seq<Scored>, id: string)
    requires DistinctIds(xs)
    ensures Count(xs, id) <= 1
  {
    if xs == [] {
    } else {
      var rest := xs[1..];
      assert DistinctIds(rest) by {
        assert forall i | 0 <= i < |rest| :: rest[i] == xs[i + 1];
      }
      DistinctCount(rest, id);
      CountOfAbsent(rest, id);
    }
  }

  lemma {:induction false} RepeatedCount(xs: seq<Scored>, i: nat, j: nat)
    requires i < j < |xs| && xs[i].id == xs[j].id
    ensures Count(xs, xs[i].id) > 1
  {
    assert xs == xs[..j] + xs[j..];
    CountConcat(xs[..j], xs[j..], xs[i].id);
    CountOfAbsent(xs[..j], xs[i].id);
    CountOfAbsent(xs[j..], xs[i].id);
    assert xs[..j][i] == xs[i] && xs[j..][0] == xs[j];
    assert xs[i] in xs[..j] && xs[j] in xs[j..];
  }

  lemma PermutationIfWithin(fused: seq<Scored>, b: Bounds, reranked: seq<Scored>, id: string)
    requires DistinctIds(fused) && DistinctIds(reranked) && forall x | x in reranked :: HasId(fused, x.id)
    ensures Count(Sorted(Blended(fused, b, reranked)), id) == Count(fused, id)
  {
    BlendKeepsIds(fused, b, reranked, id);
    DistinctCount(fused, id);
    DistinctCount(reranked, id);
    CountOfAbsent(fused, id);
    CountOfAbsent(reranked, id);
  }

  lemma WithinIfPermutation(fused: seq<Scored>, b: Bounds, reranked: seq<Scored>)
    requires DistinctIds(fused) && SameIds(Sorted(Blended(fused, b, reranked)), fused)
    ensures DistinctIds(reranked) && forall x | x in reranked :: HasId(fused, x.id)
  {
    forall id | HasId(reranked, id)
      ensures Count(reranked, id) == Count(fused, id) == 1 && HasId(fused, id)
    {
      BlendKeepsIds(fused, b, reranked, id);
      assert Count(Sorted(Blended(fused, b, reranked)), id) == Count(fused, id);
      DistinctCount(fused, id);
      CountOfAbsent(fused, id);
      CountOfAbsent(reranked, id);
    }
    forall i, j | 0 <= i < j < |reranked|
      ensures reranked[i].id != reranked[j].id
    {
      if reranked[i].id == reranked[j].id {
        RepeatedCount(reranked, i, j);
        assert reranked[i] in reranked;
        assert HasId(reranked, reranked[i].id);
        assert false;
      }
    }
    forall x | x in reranked
      ensures HasId(fused, x.id)
    {
      assert HasId(reranked, x.id);
    }
  }

  /** The candidate set is kept exactly when the reranker returns distinct ids out of it. */
  lemma BlendIsPermutation(fused: seq<Scored>, b: Bounds, reranked: seq<Scored>)
    requires DistinctIds(fused)
    ensures SameIds(Sorted(Blended(fused, b, reranked)), fused) <==>
            DistinctIds(reranked) && forall x | x in reranked :: HasId(fused, x.id)
  {
    if SameIds(Sorted(Blended(fused, b, reranked)), fused) {
      WithinIfPermutation(fused, b, reranked);
    } else {
      var id :| Count(Sorted(Blended(fused, b, reranked)), id) != Count(fused, id);
      if DistinctIds(reranked) && forall x | x in reranked :: HasId(fused, x.id) {
        PermutationIfWithin(fused, b, reranked, id);
      }
    }
  }

  lemma InBlend(fused: seq<Scored>, b: Bounds, reranked: seq<Scored>, x: Scored) returns (from: Scored)
    requires x in Sorted(Blended(fused, b, reranked))
    ensures if HasId(reranked, x.id) then
              from in reranked && from.id == x.id && x.score == BlendedScore(fused, b, from)
            else
              from == x && x in fused
  {
    SortedMembers(Blended(fused, b, reranked), x);
    UnscoredMembers(fused, reranked, x);
    if x in Reranked(fused, b, reranked) {
      var i :| 0 <= i < |reranked| && Reranked(fused, b, reranked)[i] == x;
      from := reranked[i];
      assert from in reranked;
    } else {
      from := x;
    }
  }

  /** Every reranked score lies in [0, 1], ranges of zero included; the others keep their fusion score. */
  lemma BlendedScores(fused: seq<Scored>, b: Bounds, reranked: seq<Scored>, x: Scored)
    requires Bounding(fused, b, reranked) && x in Sorted(Blended(fused, b, reranked))
    ensures if HasId(reranked, x.id) then 0.0 <= x.score <= 1.0 else x in fused
  {
    var from := InBlend(fused, b, reranked, x);
    if HasId(reranked, x.id) {
      NormInUnit(RawFused(fused, b, from.id), b.fusedMin, b.fusedMax);
      NormInUnit(from.score, b.reMin, b.reMax);
    }
  }

  lemma BetterBlend(fused: seq<Scored>, b: Bounds, x: Scored, y: Scored)
    requires b.reMin <= y.score <= x.score <= b.reMax
    requires b.fusedMin <= RawFused(fused, b, y.id) <= RawFused(fused, b, x.id) <= b.fusedMax
    requires y.score < x.score || RawFused(fused, b, y.id) < RawFused(fused, b, x.id)
    ensures BlendedScore(fused, b, y) < BlendedScore(fused, b, x)
  {
    NormRises(y.score, x.score, b.reMin, b.reMax);
    NormRises(RawFused(fused, b, y.id), RawFused(fused, b, x.id), b.fusedMin, b.fusedMax);
  }

  lemma OneItemPerId(xs: seq<Scored>, x: Scored, y: Scored)
    requires DistinctIds(xs) && x in xs && y in xs && x.id == y.id
    ensures x == y
  {
  }

  /**
   * A reranked item at least as good as another on both scores, and better on one, ranks strictly above
   * it wherever the two end up.
   */
  lemma BetterRanksAbove(
    fused: seq<Scored>, b: Bounds, reranked: seq<Scored>, x: Scored, y: Scored, result: seq<Scored>, p: nat, q: nat)
    requires Bounding(fused, b, reranked) && DistinctIds(reranked) && x in reranked && y in reranked
    requires x.score >= y.score && RawFused(fused, b, x.id) >= RawFused(fused, b, y.id)
    requires x.score > y.score || RawFused(fused, b, x.id) > RawFused(fused, b, y.id)
    requires result == Sorted(Blended(fused, b, reranked)) && p < |result| && q < |result|
    requires result[p].id == x.id && result[q].id == y.id
    ensures result[p].score > result[q].score && p < q
  {
    var rx, ry := result[p], result[q];
    assert rx in result && ry in result;
    BetterScore(fused, b, reranked, x, y, rx, ry);
    SortedDescends(Blended(fused, b, reranked));
    HigherIsEarlier(result, p, q);
  }

  lemma HigherIsEarlier(xs: seq<Scored>, p: nat, q: nat)
    requires Descending(xs) && p < |xs| && q < |xs| && xs[p].score > xs[q].score
    ensures p < q
  {
  }

  lemma BetterScore(
    fused: seq<Scored>, b: Bounds, reranked: seq<Scored>, x: Scored, y: Scored, rx: Scored, ry: Scored)
    requires Bounding(fused, b, reranked) && DistinctIds(reranked) && x in reranked && y in reranked
    requires x.score >= y.score && RawFused(fused, b, x.id) >= RawFused(fused, b, y.id)
    requires x.score > y.score || RawFused(fused, b, x.id) > RawFused(fused, b, y.id)
    requires rx in Sorted(Blended(fused, b, reranked)) && rx.id == x.id
    requires ry in Sorted(Blended(fused, b, reranked)) && ry.id == y.id
    ensures rx.score > ry.score
  {
    RerankedScore(fused, b, reranked, x, rx);
    RerankedScore(fused, b, reranked, y, ry);
    BetterBlend(fused, b, x, y);
  }

  lemma RerankedScore(fused: seq<Scored>, b: Bounds, reranked: seq<Scored>, x: Scored, r: Scored)
    requires DistinctIds(reranked) && x in reranked && r in Sorted(Blended(fused, b, reranked)) && r.id == x.id
    ensures r.score == BlendedScore(fused, b, x)
  {
    var from := InBlend(fused, b, reranked, r);
    assert HasId(reranked, x.id);
    OneItemPerId(reranked, from, x);
  }
}
