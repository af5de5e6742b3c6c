/** Normalised discounted cumulative gain of a ranking against relevant and maybe labels. */
module Ndcg {
  import opened Numbers
  import opened Sequences

  /** `_gain`. */
  function Gain(id: string, relevant: set<string>, maybe: set<string>): nat {
    if id in relevant then 2 else if id in maybe then 1 else 0
  }

  function Gains(ids: seq<string>, relevant: set<string>, maybe: set<string>): (g: seq<nat>)
    ensures |g| == |ids| && forall i | 0 <= i < |g| :: g[i] == Gain(ids[i], relevant, maybe)
  {
    seq(|ids|, i requires 0 <= i < |ids| => Gain(ids[i], relevant, maybe))
  }

  /** A gain times a discount, as repeated addition. */
  function Weigh(gain: nat, x: real): real {
    if gain == 0 then 0.0 else Weigh(gain - 1, x) + x
  }

  lemma {:induction false} WeighIsProduct(gain: nat, x: real)
    ensures Weigh(gain, x) == gain as real * x
  {
    if gain == 0 {
    } else {
      WeighIsProduct(gain - 1, x);
    }
  }

  /** `_dcg`, with the discount of each place as a parameter. */
  function Dcg(d: nat -> real, g: seq<nat>): real {
    if g == [] then 0.0 else Dcg(d, g[..|g| - 1]) + Weigh(g[|g| - 1], d(|g| - 1))
  }

  /** The r twos and m ones in descending order, cut at k. */
  function IdealGains(r: nat, m: nat, k: nat): seq<nat> {
    (seq(r, _ => 2) + seq(m, _ => 1))[..Min(k, r + m)]
  }

  /** `ndcg_at`. */
  function NdcgAt(d: nat -> real, ids: seq<string>, relevant: set<string>, maybe: set<string>, k: nat): real {
    var gains := Gains(ids[..Min(k, |ids|)], relevant, maybe);
    var ideal := Dcg(d, IdealGains(|relevant|, |maybe|, k));
    if ideal == 0.0 then 0.0 else Dcg(d, gains) / ideal
  }

  // ---- discounts and rankings ----

  /** Positive and never rising, as 1 / log2(place + 1) is. */
  ghost predicate IsDiscount(d: nat -> real) {
    && (forall i: nat :: d(i) > 0.0)
    && forall i: nat, j: nat | i < j :: d(i) >= d(j)
  }

  ghost predicate IsStrictDiscount(d: nat -> real) {
    IsDiscount(d) && forall i: nat, j: nat | i < j :: d(i) > d(j)
  }

  // ---- the ideal, without its end ----

  /** Ideal gain of place i. */
  function IdealAt(r: nat, m: nat, i: nat): nat {
    if i < r then 2 else if i < r + m then 1 else 0
  }

  function IdealSum(r: nat, m: nat, n: nat): nat {
    if n == 0 then 0 else IdealSum(r, m, n - 1) + IdealAt(r, m, n - 1)
  }

  function IdealDcg(d: nat -> real, r: nat, m: nat, n: nat): real {
    if n == 0 then 0.0 else IdealDcg(d, r, m, n - 1) + Weigh(IdealAt(r, m, n - 1), d(n - 1))
  }

  lemma {:induction false} IdealDcgOfGains(d: nat -> real, r: nat, m: nat, n: nat)
    requires n <= r + m
    ensures Dcg(d, IdealGains(r, m, n)) == IdealDcg(d, r, m, n)
  {
    if n == 0 {
    } else {
      IdealDcgOfGains(d, r, m, n - 1);
      assert IdealGains(r, m, n)[..n - 1] == IdealGains(r, m, n - 1);
    }
  }

  /** Places beyond the labels add nothing. */
  lemma {:induction false} IdealDcgBeyond(d: nat -> real, r: nat, m: nat, n: nat)
    requires r + m <= n
    ensures IdealDcg(d, r, m, n) == IdealDcg(d, r, m, r + m)
  {
    if r + m < n {
      IdealDcgBeyond(d, r, m, n - 1);
    }
  }

  lemma IdealDcgAtCut(d: nat -> real, r: nat, m: nat, k: nat)
    ensures Dcg(d, IdealGains(r, m, k)) == IdealDcg(d, r, m, k)
  {
    if k <= r + m {
      IdealDcgOfGains(d, r, m, k);
    } else {
      IdealDcgOfGains(d, r, m, r + m);
      IdealDcgBeyond(d, r, m, k);
      assert IdealGains(r, m, k) == IdealGains(r, m, r + m);
    }
  }

  lemma {:induction false} IdealDcgGrows(d: nat -> real, r: nat, m: nat, n: nat, k: nat)
    requires IsDiscount(d) && n <= k
    ensures 0.0 <= IdealDcg(d, r, m, n) <= IdealDcg(d, r, m, k)
    decreases k
  {
    if k == 0 {
    } else {
      IdealDcgGrows(d, r, m, if n < k then n else k - 1, k - 1);
      WeighGrows(IdealAt(r, m, k - 1), d(k - 1), d(k - 1));
    }
  }

  lemma {:induction false} IdealSumIs(r: nat, m: nat, n: nat)
    ensures n <= r ==> IdealSum(r, m, n) == 2 * n
    ensures r < n <= r + m ==> IdealSum(r, m, n) == r + n
    ensures r + m < n ==> IdealSum(r, m, n) == 2 * r + m
  {
    if n == 0 {
    } else {
      IdealSumIs(r, m, n - 1);
    }
  }

  // ---- no prefix of a ranking gains more than the ideal prefix ----

  function Sum(g: seq<nat>): nat {
    if g == [] then 0 else Sum(g[..|g| - 1]) + g[|g| - 1]
  }

  /** Relevant ids of a ranking, and its other maybe ids. */
  function Twos(ids: seq<string>, relevant: set<string>): set<string> {
    set id | id in ids && id in relevant
  }

  function Ones(ids: seq<string>, relevant: set<string>, maybe: set<string>): set<string> {
    set id | id in ids && id in maybe && id !in relevant
  }

  lemma CountsSnoc(ids: seq<string>, id: string, relevant: set<string>, maybe: set<string>)
    requires id !in ids
    ensures |Twos(ids + [id], relevant)| == |Twos(ids, relevant)| + if id in relevant then 1 else 0
    ensures |Ones(ids + [id], relevant, maybe)| ==
            |Ones(ids, relevant, maybe)| + if id in maybe && id !in relevant then 1 else 0
  {
    if id in relevant {
      assert Twos(ids + [id], relevant) == Twos(ids, relevant) + {id};
    } else {
      assert Twos(ids + [id], relevant) == Twos(ids, relevant);
    }
    if id in maybe && id !in relevant {
      assert Ones(ids + [id], relevant, maybe) == Ones(ids, relevant, maybe) + {id};
    } else {
      assert Ones(ids + [id], relevant, maybe) == Ones(ids, relevant, maybe);
    }
  }

  /** A ranking's gain is two for each relevant id it holds and one for each other maybe id. */
  lemma {:induction false} GainsCount(ids: seq<string>, relevant: set<string>, maybe: set<string>)
    requires Distinct(ids)
    ensures Sum(Gains(ids, relevant, maybe)) == 2 * |Twos(ids, relevant)| + |Ones(ids, relevant, maybe)|
  {
    if ids == [] {
    } else {
      var init, last := ids[..|ids| - 1], ids[|ids| - 1];
      assert ids == init + [last];
      GainsCount(init, relevant, maybe);
      CountsSnoc(init, last, relevant, maybe);
      assert Gains(ids, relevant, maybe)[..|init|] == Gains(init, relevant, maybe);
    }
  }

  lemma {:induction false} PrefixBelowIdeal(ids: seq<string>, relevant: set<string>, maybe: set<string>)
    requires Distinct(ids)
    ensures Sum(Gains(ids, relevant, maybe)) <= IdealSum(|relevant|, |maybe|, |ids|)
  {
    var all := Elements(ids);
    var a, b := Twos(ids, relevant), Ones(ids, relevant, maybe);
    GainsCount(ids, relevant, maybe);
    DistinctCount(ids);
    SubsetCount(a, relevant);
    SubsetCount(b, maybe);
    SubsetCount(a + b, all);
    assert |a + b| == |a| + |b|;
    IdealSumIs(|relevant|, |maybe|, |ids|);
  }

  // ---- the rearrangement inequality ----

  /** No prefix of g sums to more than the ideal prefix of the same length. */
  ghost predicate Majorised(g: seq<nat>, r: nat, m: nat) {
    forall n | 0 <= n <= |g| :: Sum(g[..n]) <= IdealSum(r, m, n)
  }

  lemma GainsMajorised(ids: seq<string>, relevant: set<string>, maybe: set<string>)
    requires Distinct(ids)
    ensures Majorised(Gains(ids, relevant, maybe), |relevant|, |maybe|)
  {
    var g := Gains(ids, relevant, maybe);
    forall n | 0 <= n <= |g|
      ensures Sum(g[..n]) <= IdealSum(|relevant|, |maybe|, n)
    {
      PrefixBelowIdeal(ids[..n], relevant, maybe);
      assert g[..n] == Gains(ids[..n], relevant, maybe);
    }
  }

  lemma {:induction false} MajorisedPrefix(g: seq<nat>, r: nat, m: nat)
    requires g != [] && Majorised(g, r, m)
    ensures Majorised(g[..|g| - 1], r, m) && Sum(g) <= IdealSum(r, m, |g|)
  {
    var init := g[..|g| - 1];
    assert g[..|g|] == g;
    forall n | 0 <= n <= |init|
      ensures Sum(init[..n]) <= IdealSum(r, m, n)
    {
      assert init[..n] == g[..n];
    }
  }

  lemma {:induction false} WeighAdds(a: nat, b: nat, x: real)
    ensures Weigh(a + b, x) == Weigh(a, x) + Weigh(b, x)
  {
    if a == 0 {
    } else {
      WeighAdds(a - 1, b, x);
    }
  }

  lemma {:induction false} WeighGrows(a: nat, x: real, y: real)
    requires 0.0 < x <= y
    ensures 0.0 <= Weigh(a, x) <= Weigh(a, y)
    ensures a > 0 ==> Weigh(a, x) > 0.0 && (x < y ==> Weigh(a, x) < Weigh(a, y))
  {
    if a == 0 {
    } else {
      WeighGrows(a - 1, x, y);
    }
  }

  /**
   * One place further: `lack` is by how much the ideal sum is ahead, `loss` by how much the ideal gain is.
   * Whatever the place makes up of the lack, it makes up at its own, smaller, discount.
   */
  lemma GapStep(loss: real, lack: nat, ideal: nat, gain: nat, before: real, here: real)
    requires lack + ideal >= gain && loss >= Weigh(lack, before) && before >= here > 0.0
    ensures loss + Weigh(ideal, here) - Weigh(gain, here) >= Weigh(lack + ideal - gain, here) >= 0.0
    ensures loss + Weigh(ideal, here) == Weigh(gain, here) ==> lack + ideal == gain
    ensures loss + Weigh(ideal, here) == Weigh(gain, here) && before > here ==> ideal == gain && loss == 0.0
  {
    WeighAdds(lack, ideal, here);
    WeighAdds(lack + ideal - gain, gain, here);
    WeighGrows(lack, here, before);
    WeighGrows(lack + ideal - gain, here, here);
  }

  /** What the ranking lacks in sum counts at least with the last, smallest, discount. */
  lemma {:induction false} GapBound(d: nat -> real, g: seq<nat>, r: nat, m: nat)
    requires IsDiscount(d) && g != [] && Majorised(g, r, m)
    ensures Sum(g) <= IdealSum(r, m, |g|)
    ensures IdealDcg(d, r, m, |g|) - Dcg(d, g) >= Weigh(IdealSum(r, m, |g|) - Sum(g), d(|g| - 1)) >= 0.0
  {
    MajorisedPrefix(g, r, m);
    var init, n := g[..|g| - 1], |g| - 1;
    if n > 0 {
      GapBound(d, init, r, m);
      GapStep(IdealDcg(d, r, m, n) - Dcg(d, init), IdealSum(r, m, n) - Sum(init), IdealAt(r, m, n), g[n],
              d(n - 1), d(n));
    } else {
      GapStep(0.0, 0, IdealAt(r, m, 0), g[0], d(0), d(0));
    }
  }

  lemma DcgBelowIdeal(d: nat -> real, g: seq<nat>, r: nat, m: nat)
    requires IsDiscount(d) && Majorised(g, r, m)
    ensures Dcg(d, g) <= IdealDcg(d, r, m, |g|)
  {
    if g != [] {
      GapBound(d, g, r, m);
    }
  }

  lemma {:induction false} DcgNotNegative(d: nat -> real, g: seq<nat>)
    requires IsDiscount(d)
    ensures Dcg(d, g) >= 0.0
  {
    if g == [] {
    } else {
      DcgNotNegative(d, g[..|g| - 1]);
      WeighGrows(g[|g| - 1], d(|g| - 1), d(|g| - 1));
    }
  }

  /** A ranking, with repeats or without, whose prefixes gain no more than the ideal ones scores at most 1. */
  lemma MajorisedScoresAtMostOne(
    d: nat -> real, ids: seq<string>, relevant: set<string>, maybe: set<string>, k: nat)
    requires IsDiscount(d) && Majorised(Gains(ids[..Min(k, |ids|)], relevant, maybe), |relevant|, |maybe|)
    ensures 0.0 <= NdcgAt(d, ids, relevant, maybe, k) <= 1.0
  {
    var g := Gains(ids[..Min(k, |ids|)], relevant, maybe);
    var ideal := Dcg(d, IdealGains(|relevant|, |maybe|, k));
    DcgBelowIdeal(d, g, |relevant|, |maybe|);
    IdealDcgGrows(d, |relevant|, |maybe|, |g|, k);
    IdealDcgAtCut(d, |relevant|, |maybe|, k);
    DcgNotNegative(d, g);
    if ideal != 0.0 {
      Quotient(Dcg(d, g), ideal);
    }
  }

  /** nDCG lies in [0, 1] for every ranking of distinct ids, every cut and every discount. */
  lemma NdcgInUnitInterval(d: nat -> real, ids: seq<string>, relevant: set<string>, maybe: set<string>, k: nat)
    requires IsDiscount(d) && Distinct(ids)
    ensures 0.0 <= NdcgAt(d, ids, relevant, maybe, k) <= 1.0
  {
    GainsMajorised(ids[..Min(k, |ids|)], relevant, maybe);
    MajorisedScoresAtMostOne(d, ids, relevant, maybe, k);
  }

  lemma Quotient(a: real, b: real)
    requires 0.0 <= a <= b && b > 0.0
    ensures 0.0 <= a / b <= 1.0 && (a / b == 1.0 <==> a == b)
  {
    assert a / b * b == a;
  }

  lemma QuotientAbove(a: real, b: real)
    requires a > b > 0.0
    ensures a / b > 1.0
  {
    assert a / b * b == a;
  }

  // ---- when it is one ----

  /** Every place up to the cut has the ideal gain, places beyond the ranking counting as zero. */
  ghost predicate IsIdeal(g: seq<nat>, r: nat, m: nat, k: nat) {
    forall i: nat | i < k :: IdealAt(r, m, i) == if i < |g| then g[i] else 0
  }

  /** Up to the cut the relevant ids come first, then the other maybe ids, then none of either. */
  ghost predicate BestFirst(ids: seq<string>, relevant: set<string>, maybe: set<string>, k: nat) {
    forall i: nat | i < k ::
      && (i < |relevant| ==> i < |ids| && ids[i] in relevant)
      && (|relevant| <= i < |relevant| + |maybe| ==> i < |ids| && ids[i] in maybe && ids[i] !in relevant)
      && (|relevant| + |maybe| <= i < |ids| ==> ids[i] !in relevant && ids[i] !in maybe)
  }

  lemma IdealIsBestFirst(ids: seq<string>, relevant: set<string>, maybe: set<string>, k: nat)
    ensures IsIdeal(Gains(ids[..Min(k, |ids|)], relevant, maybe), |relevant|, |maybe|, k)
       <==> BestFirst(ids, relevant, maybe, k)
  {
    var g := Gains(ids[..Min(k, |ids|)], relevant, maybe);
    forall i: nat | i < k
      ensures (if i < |g| then g[i] else 0) == if i < |ids| then Gain(ids[i], relevant, maybe) else 0
    {
    }
    if IsIdeal(g, |relevant|, |maybe|, k) {
      forall i: nat | i < k
        ensures i < |relevant| ==> i < |ids| && ids[i] in relevant
        ensures |relevant| <= i < |relevant| + |maybe| ==> i < |ids| && ids[i] in maybe && ids[i] !in relevant
        ensures |relevant| + |maybe| <= i < |ids| ==> ids[i] !in relevant && ids[i] !in maybe
      {
        assert IdealAt(|relevant|, |maybe|, i) == if i < |g| then g[i] else 0;
      }
    }
    if BestFirst(ids, relevant, maybe, k) {
      forall i: nat | i < k
        ensures IdealAt(|relevant|, |maybe|, i) == if i < |g| then g[i] else 0
      {
        assert (i < |relevant| ==> i < |ids| && ids[i] in relevant)
          && (|relevant| <= i < |relevant| + |maybe| ==> i < |ids| && ids[i] in maybe && ids[i] !in relevant)
          && (|relevant| + |maybe| <= i < |ids| ==> ids[i] !in relevant && ids[i] !in maybe);
      }
    }
  }

  /** A place at which nothing is lost has the ideal gain, and nothing was lost before it. */
  lemma NoLossAtEnd(d: nat -> real, init: seq<nat>, gain: nat, r: nat, m: nat)
    requires IsStrictDiscount(d) && Majorised(init, r, m)
    requires Sum(init) + gain <= IdealSum(r, m, |init|) + IdealAt(r, m, |init|)
    requires Dcg(d, init) + Weigh(gain, d(|init|)) ==
             IdealDcg(d, r, m, |init|) + Weigh(IdealAt(r, m, |init|), d(|init|))
    ensures gain == IdealAt(r, m, |init|) && Dcg(d, init) == IdealDcg(d, r, m, |init|)
  {
    var n, ideal := |init|, IdealAt(r, m, |init|);
    if n > 0 {
      GapBound(d, init, r, m);
      GapStep(IdealDcg(d, r, m, n) - Dcg(d, init), IdealSum(r, m, n) - Sum(init), ideal, gain, d(n - 1), d(n));
    } else {
      GapStep(0.0, 0, ideal, gain, d(0), d(0));
    }
  }

  /** With a strict discount, a ranking that loses nothing has the ideal gain at every place. */
  lemma {:induction false} NoLossIsIdeal(d: nat -> real, g: seq<nat>, r: nat, m: nat)
    requires IsStrictDiscount(d) && Majorised(g, r, m) && Dcg(d, g) == IdealDcg(d, r, m, |g|)
    ensures forall i | 0 <= i < |g| :: g[i] == IdealAt(r, m, i)
  {
    if g == [] {
    } else {
      var init := g[..|g| - 1];
      MajorisedPrefix(g, r, m);
      NoLossAtEnd(d, init, g[|g| - 1], r, m);
      NoLossIsIdeal(d, init, r, m);
    }
  }

  lemma {:induction false} IdealLosesNothing(d: nat -> real, g: seq<nat>, r: nat, m: nat)
    requires forall i | 0 <= i < |g| :: g[i] == IdealAt(r, m, i)
    ensures Dcg(d, g) == IdealDcg(d, r, m, |g|)
  {
    if g == [] {
    } else {
      IdealLosesNothing(d, g[..|g| - 1], r, m);
    }
  }

  /** Stopping early loses something unless the rest is worthless. */
  lemma {:induction false} TailLoss(d: nat -> real, r: nat, m: nat, n: nat, k: nat)
    requires IsDiscount(d) && n <= k
    ensures IdealDcg(d, r, m, n) == IdealDcg(d, r, m, k) <==> forall i: nat | n <= i < k :: IdealAt(r, m, i) == 0
    decreases k
  {
    if n < k {
      TailLoss(d, r, m, n, k - 1);
      IdealDcgGrows(d, r, m, n, k - 1);
      WeighGrows(IdealAt(r, m, k - 1), d(k - 1), d(k - 1));
    }
  }

  /** With a strict discount nDCG is 1 exactly when the best ids come first. */
  lemma NdcgIsOneExactly(d: nat -> real, ids: seq<string>, relevant: set<string>, maybe: set<string>, k: nat)
    requires IsStrictDiscount(d) && Distinct(ids)
    ensures
      NdcgAt(d, ids, relevant, maybe, k) == 1.0 <==>
      k > 0 && |relevant| + |maybe| > 0 && BestFirst(ids, relevant, maybe, k)
  {
    IdealIsBestFirst(ids, relevant, maybe, k);
    var r, m := |relevant|, |maybe|;
    var g := Gains(ids[..Min(k, |ids|)], relevant, maybe);
    var ideal := IdealDcg(d, r, m, k);
    GainsMajorised(ids[..Min(k, |ids|)], relevant, maybe);
    DcgBelowIdeal(d, g, r, m);
    IdealDcgGrows(d, r, m, |g|, k);
    IdealDcgAtCut(d, r, m, k);
    DcgNotNegative(d, g);
    TailLoss(d, r, m, 0, k);
    TailLoss(d, r, m, |g|, k);
    assert ideal > 0.0 <==> k > 0 && r + m > 0 by {
      if k > 0 && r + m > 0 {
        assert IdealAt(r, m, 0) != 0;
      }
    }
    if ideal > 0.0 {
      Quotient(Dcg(d, g), ideal);
      if Dcg(d, g) == ideal {
        NoLossIsIdeal(d, g, r, m);
      } else if IsIdeal(g, r, m, k) {
        IdealLosesNothing(d, g, r, m);
      }
    }
  }

  /** Distinctness matters: a ranking that repeats a relevant id scores above 1. */
  lemma RepeatedIdExceedsOne(d: nat -> real, id: string)
    requires IsDiscount(d)
    ensures NdcgAt(d, [id, id], {id}, {}, 2) > 1.0
  {
    var g := Gains([id, id], {id}, {});
    assert g == [2, 2] && g[..1] == [2] && g[..0] == [] && [2][..0] == [];
    assert IdealGains(1, 0, 2) == [2];
    assert [id, id][..2] == [id, id];
    var ideal := Dcg(d, [2]);
    WeighIsProduct(2, d(0));
    WeighGrows(2, d(1), d(0));
    assert ideal == Weigh(2, d(0)) > 0.0;
    assert Dcg(d, g) == Dcg(d, g[..1]) + Weigh(2, d(1));
    assert [id, id][..Min(2, |[id, id]|)] == [id, id] && |{id}| == 1;
    QuotientAbove(Dcg(d, g), ideal);
  }

  /** Without labels, or with a cut at zero, the score is 0. */
  lemma NothingToFind(d: nat -> real, ids: seq<string>, relevant: set<string>, maybe: set<string>, k: nat)
    requires IsDiscount(d)
    ensures k == 0 || |relevant| + |maybe| == 0 ==> NdcgAt(d, ids, relevant, maybe, k) == 0.0
  {
    IdealDcgAtCut(d, |relevant|, |maybe|, k);
    TailLoss(d, |relevant|, |maybe|, 0, k);
  }

  /** What the gains and places are worth: a relevant id counts twice a maybe id, each at its place's discount. */
  lemma MaybeBeforeRelevant(d: nat -> real, a: string, b: string)
    requires IsDiscount(d) && a != b
    ensures NdcgAt(d, [b, a], {a}, {b}, 2) == (d(0) + 2.0 * d(1)) / (2.0 * d(0) + d(1))
    ensures NdcgAt(d, [b, a], {a}, {b}, 1) == 0.5
  {
    DcgOfOne(d, 1);
    DcgOfOne(d, 2);
    DcgOfTwo(d, 1, 2);
    DcgOfTwo(d, 2, 1);
    GainsAndIdeals(a, b);
    NdcgIsQuotient(d, [b, a], {a}, {b}, 2, [1, 2], [2, 1]);
    NdcgIsQuotient(d, [b, a], {a}, {b}, 1, [1], [2]);
    assert Dcg(d, [1, 2]) == d(0) + 2.0 * d(1) && Dcg(d, [2, 1]) == 2.0 * d(0) + d(1);
    assert Dcg(d, [1]) == d(0) && Dcg(d, [2]) == 2.0 * d(0);
    Half(d(0));
  }

  lemma Half(x: real)
    requires x > 0.0
    ensures x / (2.0 * x) == 0.5
  {
  }

  lemma GainsAndIdeals(a: string, b: string)
    requires a != b
    ensures Gains([b, a][..Min(2, |[b, a]|)], {a}, {b}) == [1, 2]
    ensures Gains([b, a][..Min(1, |[b, a]|)], {a}, {b}) == [1]
    ensures IdealGains(|{a}|, |{b}|, 2) == [2, 1] && IdealGains(|{a}|, |{b}|, 1) == [2]
  {
    var ids := [b, a];
    assert ids[..Min(2, |ids|)] == [b, a] && ids[..Min(1, |ids|)] == [b];
    assert |{a}| == 1 && |{b}| == 1;
  }

  lemma NdcgIsQuotient(
    d: nat -> real, ids: seq<string>, relevant: set<string>, maybe: set<string>, k: nat, g: seq<nat>, ideal: seq<nat>)
    requires Gains(ids[..Min(k, |ids|)], relevant, maybe) == g
    requires IdealGains(|relevant|, |maybe|, k) == ideal && Dcg(d, ideal) > 0.0
    ensures NdcgAt(d, ids, relevant, maybe, k) == Dcg(d, g) / Dcg(d, ideal)
  {
  }

  lemma DcgOfOne(d: nat -> real, x: nat)
    ensures Dcg(d, [x]) == x as real * d(0)
  {
    assert [x][..0] == [];
    WeighIsProduct(x, d(0));
  }

  lemma DcgOfTwo(d: nat -> real, x: nat, y: nat)
    ensures Dcg(d, [x, y]) == x as real * d(0) + y as real * d(1)
  {
    assert [x, y][..1] == [x];
    DcgOfOne(d, x);
    WeighIsProduct(y, d(1));
  }

  // ---- exactly when it is at most one ----

  /** Full weight for the first n places, little for the others. */
  function StepDiscount(n: nat, little: real): nat -> real {
    (i: nat) => if i < n then 1.0 else little
  }

  lemma {:induction false} StepDcg(n: nat, little: real, g: seq<nat>)
    requires 0.0 < little <= 1.0 && n <= |g|
    ensures Dcg(StepDiscount(n, little), g) >= Sum(g[..n]) as real
    decreases |g|
  {
    if n < |g| {
      var init := g[..|g| - 1];
      StepDcg(n, little, init);
      assert init[..n] == g[..n];
      WeighGrows(g[|g| - 1], little, little);
    } else {
      assert g[..n] == g;
      FullDcg(n, little, g);
    }
  }

  lemma {:induction false} FullDcg(n: nat, little: real, g: seq<nat>)
    requires |g| <= n
    ensures Dcg(StepDiscount(n, little), g) == Sum(g) as real
  {
    if g == [] {
    } else {
      FullDcg(n, little, g[..|g| - 1]);
      WeighIsProduct(g[|g| - 1], 1.0);
    }
  }

  lemma {:induction false} StepIdeal(n: nat, little: real, r: nat, m: nat, k: nat)
    requires 0.0 < little <= 1.0
    ensures
      var d := StepDiscount(n, little);
      if k <= n then IdealDcg(d, r, m, k) == IdealSum(r, m, k) as real
      else IdealDcg(d, r, m, k) <= IdealSum(r, m, n) as real + Weigh(2 * k, little)
  {
    if k == 0 {
    } else {
      StepIdeal(n, little, r, m, k - 1);
      var gain := IdealAt(r, m, k - 1);
      if k <= n {
        WeighIsProduct(gain, 1.0);
      } else {
        WeighAdds(2 * k - 2, 2, little);
        WeighAdds(2 - gain, gain, little);
        WeighGrows(2 - gain, little, little);
        WeighGrows(2 * k - 2, little, little);
      }
    }
  }

  /** A prefix that sums to more than the ideal one beats it under a discount that falls steeply behind it. */
  lemma SteepDiscountTells(g: seq<nat>, r: nat, m: nat, k: nat, n: nat) returns (d: nat -> real)
    requires n <= |g| <= k && Sum(g[..n]) > IdealSum(r, m, n)
    ensures IsDiscount(d) && Dcg(d, g) > IdealDcg(d, r, m, k)
  {
    var little := LittleWeight(2 * k);
    d := StepDiscount(n, little);
    StepDcg(n, little, g);
    StepIdeal(n, little, r, m, k);
    WholeMore(Sum(g[..n]), IdealSum(r, m, n));
  }

  lemma WholeMore(a: nat, b: nat)
    requires a > b
    ensures a as real >= b as real + 1.0
  {
  }

  /** A weight so small that n of it stay below one. */
  lemma LittleWeight(n: nat) returns (little: real)
    ensures 0.0 < little <= 1.0 && Weigh(n, little) < 1.0
  {
    little := Reciprocal(n as real + 1.0);
    WeighIsProduct(n, little);
  }

  lemma Reciprocal(x: real) returns (y: real)
    requires x >= 1.0
    ensures 0.0 < y <= 1.0 && (x - 1.0) * y < 1.0
  {
    y := 1.0 / x;
    assert x * y == 1.0;
    assert (x - 1.0) * y == x * y - y;
  }

  /**
   * nDCG is at most 1 under every discount if and only if no prefix of the gains sums to more than the ideal
   * prefix of its length. Rankings of distinct ids always meet this.
   */
  lemma AtMostOneExactly(ids: seq<string>, relevant: set<string>, maybe: set<string>, k: nat)
    ensures (forall d | IsDiscount(d) :: NdcgAt(d, ids, relevant, maybe, k) <= 1.0)
       <==> Majorised(Gains(ids[..Min(k, |ids|)], relevant, maybe), |relevant|, |maybe|)
  {
    var r, m, g := |relevant|, |maybe|, Gains(ids[..Min(k, |ids|)], relevant, maybe);
    if Majorised(g, r, m) {
      forall d | IsDiscount(d)
        ensures NdcgAt(d, ids, relevant, maybe, k) <= 1.0
      {
        MajorisedScoresAtMostOne(d, ids, relevant, maybe, k);
      }
    } else {
      var n :| 0 <= n <= |g| && Sum(g[..n]) > IdealSum(r, m, n);
      var d := SteepDiscountTells(g, r, m, k, n);
      NothingGainedWithoutLabels(ids[..Min(k, |ids|)], relevant, maybe, n);
      IdealDcgAtCut(d, r, m, k);
      IdealDcgGrows(d, r, m, 0, k);
      TailLoss(d, r, m, 0, k);
      assert IdealAt(r, m, 0) != 0;
      QuotientAbove(Dcg(d, g), IdealDcg(d, r, m, k));
    }
  }

  lemma {:induction false} NothingGainedWithoutLabels(
    ids: seq<string>, relevant: set<string>, maybe: set<string>, n: nat)
    requires n <= |ids| && Sum(Gains(ids, relevant, maybe)[..n]) > 0
    ensures |relevant| + |maybe| > 0
  {
    var g := Gains(ids, relevant, maybe)[..n];
    if g[n - 1] == 0 {
      assert g[..n - 1] == Gains(ids, relevant, maybe)[..n - 1];
      NothingGainedWithoutLabels(ids, relevant, maybe, n - 1);
    } else {
      assert ids[n - 1] in relevant + maybe;
    }
  }

  // ---- labels ----

  datatype Label = ChunkLabel(id: string) | TextLabel(path: string, contains: string) | UnsupportedLabel

  datatype Labels = Labels(relevant: set<string>, maybe: set<string>) | ValueError

  /** One label's chunk id: given, or the only chunk of the file that contains the text. */
  function ResolveOne(find: (string, string) -> seq<string>, l: Label): (ids: seq<string>)
    ensures |ids| <= 1
  {
    match l
    case ChunkLabel(id) => [id]
    case TextLabel(path, contains) => if |find(path, contains)| == 1 then find(path, contains) else []
    case UnsupportedLabel => []
  }

  function ResolvedIds(find: (string, string) -> seq<string>, labels: seq<Label>): set<string> {
    set l | l in labels && ResolveOne(find, l) != [] :: ResolveOne(find, l)[0]
  }

  /** A chunk label always resolves, a text label when exactly one chunk of the file contains the text. */
  predicate Resolves(find: (string, string) -> seq<string>, l: Label) {
    l.ChunkLabel? || (l.TextLabel? && |find(l.path, l.contains)| == 1)
  }

  /** The label names this chunk. */
  predicate Means(find: (string, string) -> seq<string>, l: Label, id: string) {
    (l.ChunkLabel? && l.id == id) || (l.TextLabel? && find(l.path, l.contains) == [id])
  }

  lemma OneLabel(find: (string, string) -> seq<string>, l: Label)
    ensures Resolves(find, l) <==> ResolveOne(find, l) != []
    ensures forall id :: Means(find, l, id) <==> ResolveOne(find, l) == [id]
  {
  }

  lemma IdsOfLabels(find: (string, string) -> seq<string>, labels: seq<Label>, id: string)
    ensures id in ResolvedIds(find, labels) <==> exists l :: l in labels && Means(find, l, id)
  {
    forall l
      ensures Means(find, l, id) <==> ResolveOne(find, l) == [id]
    {
      OneLabel(find, l);
    }
    if id in ResolvedIds(find, labels) {
      var l :| l in labels && ResolveOne(find, l) != [] && ResolveOne(find, l)[0] == id;
      assert ResolveOne(find, l) == [id];
    }
  }

  /** The union of a label list, or nothing when one label has no chunk. */
  method ResolveAll(find: (string, string) -> seq<string>, labels: seq<Label>) returns (ok: bool, ids: set<string>)
    ensures ok <==> forall l | l in labels :: Resolves(find, l)
    ensures ok ==> forall id :: id in ids <==> exists l :: l in labels && Means(find, l, id)
  {
    ids := {};
    for i := 0 to |labels|
      invariant forall l | l in labels[..i] :: Resolves(find, l)
      invariant ids == ResolvedIds(find, labels[..i])
    {
      var found := ResolveOne(find, labels[i]);
      OneLabel(find, labels[i]);
      if found == [] {
        return false, {};
      }
      assert labels[..i + 1] == labels[..i] + [labels[i]];
      ids := ids + {found[0]};
    }
    assert labels[..|labels|] == labels;
    ok := true;
    forall id
      ensures id in ids <==> exists l :: l in labels && Means(find, l, id)
    {
      IdsOfLabels(find, labels, id);
    }
  }

  /** `resolve_labels`: the two sets are disjoint, relevance winning over maybe. */
  method ResolveLabels(find: (string, string) -> seq<string>, relevant: seq<Label>, maybe: seq<Label>)
    returns (r: Labels)
    ensures r.ValueError? <==> exists l :: l in relevant + maybe && !Resolves(find, l)
    ensures r.Labels? ==> forall id :: id in r.relevant <==> exists l :: l in relevant && Means(find, l, id)
    ensures r.Labels? ==> forall id :: id in r.maybe <==>
              id !in r.relevant && exists l :: l in maybe && Means(find, l, id)
  {
    var ok, ids := ResolveAll(find, relevant);
    if !ok {
      return ValueError;
    }
    var okMaybe, maybeIds := ResolveAll(find, maybe);
    if !okMaybe {
      return ValueError;
    }
    r := Labels(ids, maybeIds - ids);
  }
}
