/** Where cached and uncached extraction agree, where they do not, and what batched inference gives. */
module NerAgreement {
  import opened NerCache
  import opened Sequences
  import GlinerSegments

  // ---- agreement ----

  ghost predicate DistinctTexts(chunks: seq<Chunk>) {
    forall i, j | 0 <= i < j < |chunks| :: chunks[i].text != chunks[j].text
  }

  lemma {:induction false} DistinctTextsAllLookedUp(chunks: seq<Chunk>)
    requires DistinctTexts(chunks)
    ensures LookedUp(chunks) == chunks
  {
    if chunks == [] {
    } else {
      var init, c := chunks[..|chunks| - 1], chunks[|chunks| - 1];
      DistinctTextsAllLookedUp(init);
      AppendsNewText(init, c);
      assert chunks == init + [c];
    }
  }

  lemma {:induction false} AppendsNewText(kept: seq<Chunk>, c: Chunk)
    requires forall d | d in kept :: d.text != c.text
    ensures Replace(kept, c) == kept + [c]
  {
    if kept == [] {
    } else {
      assert kept[0] in kept;
      AppendsNewText(kept[1..], c);
      assert kept == [kept[0]] + kept[1..];
    }
  }

  /**
   * Cached extraction agrees with uncached: for chunks with distinct texts, any split into hits and
   * misses gives the same entity keys with the same chunk ids, the same multiset of CO_OCCURS and the
   * same (chunk, name) MENTIONS pairs as running the model on every chunk.
   */
  lemma {:induction false} CachedAgreesWithUncached(
    x: Extractor, cache: map<string, Entry>, chunks: seq<Chunk>, cached: Result, uncached: Result)
    requires DistinctTexts(chunks)
    requires Extracts(x, cached, Hits(cache, LookedUp(chunks)) + Misses(cache, LookedUp(chunks)))
    requires Extracts(x, uncached, chunks)
    ensures Attribution(x, cached.entities) == Attribution(x, uncached.entities)
    ensures CoOccurrences(cached.relations) == CoOccurrences(uncached.relations)
    ensures MentionPairs(cached.relations) == MentionPairs(uncached.relations)
  {
    DistinctTextsAllLookedUp(chunks);
    SplitExtractsAll(x, cache, chunks);
  }

  /** A chunk is passed over when a later chunk has its text. */
  ghost predicate PassedOver(chunks: seq<Chunk>, i: nat)
    requires i < |chunks|
  {
    exists j :: i < j < |chunks| && chunks[j].text == chunks[i].text
  }

  lemma {:induction false} LookedUpMembers(chunks: seq<Chunk>, c: Chunk)
    ensures c in LookedUp(chunks) <==> exists i :: 0 <= i < |chunks| && chunks[i] == c && !PassedOver(chunks, i)
    ensures forall i, j | 0 <= i < j < |LookedUp(chunks)| :: LookedUp(chunks)[i].text != LookedUp(chunks)[j].text
  {
    if chunks == [] {
    } else {
      var init, last := chunks[..|chunks| - 1], chunks[|chunks| - 1];
      assert chunks == init + [last];
      LookedUpMembers(init, c);
      ReplaceMembers(LookedUp(init), last, c);
      forall i | 0 <= i < |init|
        ensures PassedOver(chunks, i) <==> PassedOver(init, i) || init[i].text == last.text
      {
        if PassedOver(init, i) {
          var j :| i < j < |init| && init[j].text == init[i].text;
          assert chunks[j].text == chunks[i].text;
        }
        if init[i].text == last.text {
          assert chunks[|init|].text == chunks[i].text;
        }
      }
      assert !PassedOver(chunks, |init|);
      if i :| 0 <= i < |init| && init[i] == c && !PassedOver(init, i) {
        assert chunks[i] == c;
      }
      assert chunks[|init|] == last;
    }
  }

  lemma {:induction false} ReplaceMembers(kept: seq<Chunk>, last: Chunk, c: Chunk)
    requires forall i, j | 0 <= i < j < |kept| :: kept[i].text != kept[j].text
    ensures c in Replace(kept, last) <==> c == last || (c in kept && c.text != last.text)
    ensures forall i, j | 0 <= i < j < |Replace(kept, last)| ::
              Replace(kept, last)[i].text != Replace(kept, last)[j].text
  {
    if kept == [] {
    } else {
      ReplaceMembers(kept[1..], last, c);
      assert forall d :: d in kept <==> d == kept[0] || d in kept[1..];
      if kept[0].text != last.text {
        forall j | 0 <= j < |Replace(kept[1..], last)|
          ensures Replace(kept[1..], last)[j].text != kept[0].text
        {
          assert Replace(kept[1..], last)[j] in Replace(kept[1..], last);
        }
      }
    }
  }

  lemma {:induction false} NothingPassedOverIsLost(x: Extractor, chunks: seq<Chunk>)
    requires forall i | 0 <= i < |chunks| && PassedOver(chunks, i) :: EntitiesOf(x, chunks[i].text) == []
    ensures AttributionOf(x, LookedUp(chunks)) == AttributionOf(x, chunks)
  {
    forall c, k | c in chunks && k in Keys(x, EntitiesOf(x, c.text))
      ensures c in LookedUp(chunks)
    {
      LookedUpMembers(chunks, c);
      var i :| 0 <= i < |chunks| && chunks[i] == c;
    }
  }

  // ---- exactly when repeated texts do harm ----

  ghost predicate NonePassedOver(chunks: seq<Chunk>) {
    forall i | 0 <= i < |chunks| :: !PassedOver(chunks, i)
  }

  ghost predicate DistinctIds(chunks: seq<Chunk>) {
    forall i, j | 0 <= i < j < |chunks| :: chunks[i].id != chunks[j].id
  }

  /** Fewer chunks are looked up as soon as one is passed over. */
  lemma {:induction false} LookedUpCount(chunks: seq<Chunk>)
    ensures |LookedUp(chunks)| <= |chunks|
    ensures !NonePassedOver(chunks) ==> |LookedUp(chunks)| < |chunks|
  {
    if chunks == [] {
    } else {
      var init, last := chunks[..|chunks| - 1], chunks[|chunks| - 1];
      LookedUpCount(init);
      ReplaceCount(LookedUp(init), last);
      if forall d | d in LookedUp(init) :: d.text != last.text {
        forall i | 0 <= i < |init|
          ensures init[i].text != last.text
        {
          LatestIsLookedUp(init, i);
        }
        if i :| 0 <= i < |chunks| && PassedOver(chunks, i) {
          var j :| i < j < |chunks| && chunks[j].text == chunks[i].text;
          assert init[j].text == init[i].text;
          assert PassedOver(init, i);
        }
      }
    }
  }

  lemma {:induction false} ReplaceCount(kept: seq<Chunk>, c: Chunk)
    ensures |Replace(kept, c)| == |kept| + if forall d | d in kept :: d.text != c.text then 1 else 0
  {
    if kept == [] {
    } else {
      ReplaceCount(kept[1..], c);
      assert kept[0] in kept;
      assert forall d :: d in kept <==> d == kept[0] || d in kept[1..];
    }
  }

  /** Some chunk with the text of chunk i is looked up. */
  lemma {:induction false} LatestIsLookedUp(chunks: seq<Chunk>, i: nat)
    requires i < |chunks|
    ensures exists d :: d in LookedUp(chunks) && d.text == chunks[i].text
    decreases |chunks| - i
  {
    if PassedOver(chunks, i) {
      var j :| i < j < |chunks| && chunks[j].text == chunks[i].text;
      LatestIsLookedUp(chunks, j);
    } else {
      LookedUpMembers(chunks, chunks[i]);
    }
  }

  /** An extractor that finds the same two entities in every text. */
  function PairExtractor(): Extractor {
    Extractor(_ => [[]], _ => [Prediction("a", "t"), Prediction("b", "t")], (s: string) => s, (s: string) => s)
  }

  function TwoFound(): seq<Found> {
    [Found("a", "t"), Found("b", "t")]
  }

  lemma PairExtractorPredicts(text: string)
    ensures PairExtractor().Predict(text) == [Prediction("a", "t"), Prediction("b", "t")]
  {
    var x := PairExtractor();
    var cuts := GlinerSegments.Predict(x.model, x.cut(text));
    assert |cuts| == 1 && cuts[..0] == [];
    assert GlinerSegments.Concat(cuts) == [] + cuts[0];
  }

  lemma SpansOfTwo(x: Extractor, p: Prediction, q: Prediction)
    requires x.strip(p.text) != "" && x.strip(q.text) != ""
    ensures Spans(x, [p, q]) == [Found(x.strip(p.text), p.kind), Found(x.strip(q.text), q.kind)]
  {
    assert [p, q][..1] == [p] && [p][..0] == [];
    assert Spans(x, [p]) == [Found(x.strip(p.text), p.kind)];
  }

  lemma FirstsOfTwo(x: Extractor, f: Found, g: Found)
    ensures Firsts(x, [f, g]) == if FoundKey(x, f) == FoundKey(x, g) then [f] else [f, g]
  {
    assert [f, g][..1] == [f] && [f][..0] == [];
    assert Firsts(x, [f]) == [f];
  }

  lemma PairExtractorFindsTwo(text: string)
    ensures EntitiesOf(PairExtractor(), text) == TwoFound()
  {
    var x := PairExtractor();
    PairExtractorPredicts(text);
    SpansOfTwo(x, Prediction("a", "t"), Prediction("b", "t"));
    FirstsOfTwo(x, Found("a", "t"), Found("b", "t"));
    assert FoundKey(x, Found("a", "t")).0 == "a" && FoundKey(x, Found("b", "t")).0 == "b";
  }

  lemma {:induction false} PairCoOccurrences(chunks: seq<Chunk>)
    ensures |CoOccurrencesOf(PairExtractor(), chunks)| == |chunks|
  {
    if chunks == [] {
    } else {
      PairExtractorFindsTwo(chunks[0].text);
      assert TwoFound()[1..] == [Found("b", "t")] && TwoFound()[1..][1..] == [];
      assert Pairs(TwoFound()[1..]) == [];
      assert PairsWith(TwoFound()[0], TwoFound()[1..]) == [CoOccurs("a", "b")];
      assert Pairs(TwoFound()) == [CoOccurs("a", "b")] && [CoOccurs("a", "b")][1..] == [];
      assert CoOccurrences(Pairs(TwoFound())) == multiset{CoOccurs("a", "b")};
      PairCoOccurrences(chunks[1..]);
    }
  }

  /** A chunk that is passed over is missing from whatever is found in it. */
  lemma PassedOverIsLost(x: Extractor, chunks: seq<Chunk>, i: nat)
    requires DistinctIds(chunks)
    requires i < |chunks| && PassedOver(chunks, i) && EntitiesOf(x, chunks[i].text) != []
    ensures AttributionOf(x, LookedUp(chunks)) != AttributionOf(x, chunks)
    ensures MentionPairsOf(x, LookedUp(chunks)) != MentionPairsOf(x, chunks)
  {
    var c := chunks[i];
    var f := EntitiesOf(x, c.text)[0];
    assert f in EntitiesOf(x, c.text);
    assert FoundKey(x, f) in Keys(x, EntitiesOf(x, c.text));
    assert (FoundKey(x, f), c.id) in AttributionOf(x, chunks);
    assert (c.id, f.name) in MentionPairsOf(x, chunks);
    LookedUpMembers(chunks, c);
    assert c !in LookedUp(chunks);
    forall d | d in LookedUp(chunks)
      ensures d.id != c.id
    {
      assert d in chunks;
    }
  }

  lemma NonePassedOverLosesNothing(chunks: seq<Chunk>)
    requires NonePassedOver(chunks)
    ensures LookedUp(chunks) == chunks
  {
    forall i, j | 0 <= i < j < |chunks|
      ensures chunks[i].text != chunks[j].text
    {
      assert !PassedOver(chunks, i);
    }
    DistinctTextsAllLookedUp(chunks);
  }

  /** Cached results of one chunk list, whatever the extractor and whatever its cache holds. */
  ghost predicate AreCached(
    chunks: seq<Chunk>, caches: Extractor -> map<string, Entry>, cached: Extractor -> Result)
  {
    forall x: Extractor ::
      Extracts(x, cached(x), Hits(caches(x), LookedUp(chunks)) + Misses(caches(x), LookedUp(chunks)))
  }

  lemma CachedIsOfLookedUp(
    chunks: seq<Chunk>, caches: Extractor -> map<string, Entry>, cached: Extractor -> Result, x: Extractor)
    requires AreCached(chunks, caches, cached)
    ensures Attribution(x, cached(x).entities) == AttributionOf(x, LookedUp(chunks))
    ensures CoOccurrences(cached(x).relations) == CoOccurrencesOf(x, LookedUp(chunks))
    ensures MentionPairs(cached(x).relations) == MentionPairsOf(x, LookedUp(chunks))
  {
    assert Extracts(x, cached(x), Hits(caches(x), LookedUp(chunks)) + Misses(caches(x), LookedUp(chunks)));
    SplitExtractsAll(x, caches(x), LookedUp(chunks));
  }

  /**
   * Exactly when repeated texts do harm: for chunks with distinct ids, cached attribution, cached CO_OCCURS
   * and cached MENTIONS pairs are each right for every extractor if and only if no chunk has the text of a
   * later one.
   */
  lemma RepeatedTextsDoHarm(
    chunks: seq<Chunk>, caches: Extractor -> map<string, Entry>, cached: Extractor -> Result)
    requires DistinctIds(chunks) && AreCached(chunks, caches, cached)
    ensures (forall x: Extractor :: Attribution(x, cached(x).entities) == AttributionOf(x, chunks))
            <==> NonePassedOver(chunks)
    ensures (forall x: Extractor :: CoOccurrences(cached(x).relations) == CoOccurrencesOf(x, chunks))
            <==> NonePassedOver(chunks)
    ensures (forall x: Extractor :: MentionPairs(cached(x).relations) == MentionPairsOf(x, chunks))
            <==> NonePassedOver(chunks)
  {
    if NonePassedOver(chunks) {
      NonePassedOverLosesNothing(chunks);
      forall x: Extractor
        ensures Attribution(x, cached(x).entities) == AttributionOf(x, chunks)
        ensures CoOccurrences(cached(x).relations) == CoOccurrencesOf(x, chunks)
        ensures MentionPairs(cached(x).relations) == MentionPairsOf(x, chunks)
      {
        CachedIsOfLookedUp(chunks, caches, cached, x);
      }
    } else {
      var x := PairExtractor();
      var i :| 0 <= i < |chunks| && PassedOver(chunks, i);
      CachedIsOfLookedUp(chunks, caches, cached, x);
      PairExtractorFindsTwo(chunks[i].text);
      PassedOverIsLost(x, chunks, i);
      PairCoOccurrences(chunks);
      PairCoOccurrences(LookedUp(chunks));
      LookedUpCount(chunks);
    }
  }

  /**
   * For one extractor: cached extraction attributes entities as uncached does if and only if no chunk that
   * is passed over has entities.
   */
  lemma RepeatedTextsLoseAttribution(x: Extractor, cache: map<string, Entry>, chunks: seq<Chunk>, cached: Result)
    requires DistinctIds(chunks)
    requires Extracts(x, cached, Hits(cache, LookedUp(chunks)) + Misses(cache, LookedUp(chunks)))
    ensures Attribution(x, cached.entities) == AttributionOf(x, chunks) <==>
            forall i | 0 <= i < |chunks| && PassedOver(chunks, i) :: EntitiesOf(x, chunks[i].text) == []
  {
    SplitExtractsAll(x, cache, LookedUp(chunks));
    if i :| 0 <= i < |chunks| && PassedOver(chunks, i) && EntitiesOf(x, chunks[i].text) != [] {
      PassedOverIsLost(x, chunks, i);
    } else {
      NothingPassedOverIsLost(x, chunks);
    }
  }

  /** The smallest case: of two chunks with one text the first is not looked up and loses its entities. */
  lemma TwoChunksOneText(x: Extractor, text: string, id1: string, id2: string)
    requires id1 != id2 && EntitiesOf(x, text) != []
    ensures
      var chunks := [Chunk(id1, text), Chunk(id2, text)];
      && LookedUp(chunks) == [Chunk(id2, text)]
      && AttributionOf(x, LookedUp(chunks)) != AttributionOf(x, chunks)
      && MentionPairsOf(x, LookedUp(chunks)) != MentionPairsOf(x, chunks)
  {
    var c, d := Chunk(id1, text), Chunk(id2, text);
    assert [c, d][..1] == [c] && [c][..0] == [];
    assert LookedUp([c]) == [c] && [c][1..] == [];
    assert [c, d][1].text == [c, d][0].text;
    assert PassedOver([c, d], 0);
    PassedOverIsLost(x, [c, d], 0);
  }

  // ---- mention weights ----

  /** No earlier span has the (name, type) key of span i. */
  ghost predicate IsFirst(x: Extractor, spans: seq<Found>, i: nat)
    requires i < |spans|
  {
    forall j | 0 <= j < i :: FoundKey(x, spans[j]) != FoundKey(x, spans[i])
  }

  /** Of the spans that carry a name, all are kept as entities exactly when each is the first of its key. */
  lemma {:induction false} CountOfFirsts(x: Extractor, spans: seq<Found>, name: string)
    ensures CountName(Firsts(x, spans), name) <= CountName(spans, name)
    ensures CountName(Firsts(x, spans), name) == CountName(spans, name) <==>
            forall i | 0 <= i < |spans| && spans[i].name == name :: IsFirst(x, spans, i)
  {
    if spans == [] {
    } else {
      var init, last := spans[..|spans| - 1], spans[|spans| - 1];
      assert spans == init + [last];
      CountOfFirsts(x, init, name);
      CountNameSnoc(init, last, name);
      CountNameSnoc(Firsts(x, init), last, name);
      FirstsKeepKeys(x, init);
      LastIsFirst(x, init, last);
      forall i | 0 <= i < |init|
        ensures IsFirst(x, spans, i) <==> IsFirst(x, init, i)
      {
        assert forall j | 0 <= j <= i :: spans[j] == init[j];
      }
    }
  }

  lemma LastIsFirst(x: Extractor, init: seq<Found>, last: Found)
    ensures IsFirst(x, init + [last], |init|) <==> FoundKey(x, last) !in Keys(x, init)
  {
    var spans := init + [last];
    assert forall j | 0 <= j < |init| :: spans[j] == init[j] && init[j] in init;
  }

  /**
   * Mention weights: for a name a text mentions, the cached weight is the fresh one if and only if every
   * span with that name is the first of its (name, type) key. A name mentioned twice under one type
   * therefore weighs less from the cache.
   */
  lemma {:induction false} MentionWeights(x: Extractor, chunk: string, text: string, name: string)
    requires exists f :: f in EntitiesOf(x, text) && f.name == name
    ensures
      var fs, spans := EntitiesOf(x, text), Spans(x, x.Predict(text));
      (forall v, w | Mentions(chunk, name, v) in FreshMentions(chunk, fs, spans)
                     && Mentions(chunk, name, w) in CachedMentions(chunk, fs, fs) :: v == w)
      <==> forall i | 0 <= i < |spans| && spans[i].name == name :: IsFirst(x, spans, i)
  {
    var fs, spans := EntitiesOf(x, text), Spans(x, x.Predict(text));
    CountedNames(fs, name);
    FreshWeight(chunk, fs, spans, name);
    CachedWeight(chunk, fs, fs, name);
    assert Mentions(chunk, name, CountName(spans, name)) in FreshMentions(chunk, fs, spans);
    assert Mentions(chunk, name, CountName(fs, name)) in CachedMentions(chunk, fs, fs);
    CountOfFirsts(x, spans, name);
  }

  /** A name found twice under one type: weight 2 fresh, weight 1 from the cache. */
  lemma RepeatedSpanWeighsLess(x: Extractor, chunk: string, text: string, p: Prediction)
    requires x.Predict(text) == [p, p] && x.strip(p.text) != ""
    ensures
      var fs, spans, name := EntitiesOf(x, text), Spans(x, x.Predict(text)), x.strip(p.text);
      && FreshMentions(chunk, fs, spans) == [Mentions(chunk, name, 2)]
      && CachedMentions(chunk, fs, fs) == [Mentions(chunk, name, 1)]
  {
    var f := Found(x.strip(p.text), p.kind);
    SpansOfTwo(x, p, p);
    FirstsOfTwo(x, f, f);
    MentionsOfOne(chunk, f, [f, f]);
    MentionsOfOne(chunk, f, [f]);
    assert [f][1..] == [] && [f, f][1..] == [f];
  }

  lemma MentionsOfOne(chunk: string, f: Found, all: seq<Found>)
    ensures FreshMentions(chunk, [f], all) == [Mentions(chunk, f.name, CountName(all, f.name))]
    ensures CachedMentions(chunk, [f], all) == [Mentions(chunk, f.name, CountName(all, f.name))]
  {
    assert [f][1..] == [] && [f][..0] == [];
    assert CountName([], f.name) == 0;
  }

  lemma {:induction false} FreshWeight(chunk: string, fs: seq<Found>, spans: seq<Found>, name: string)
    ensures forall v :: Mentions(chunk, name, v) in FreshMentions(chunk, fs, spans) <==>
                        CountName(fs, name) > 0 && v == CountName(spans, name)
  {
    if fs == [] {
    } else {
      FreshWeight(chunk, fs[1..], spans, name);
    }
  }

  lemma {:induction false} CachedWeight(chunk: string, fs: seq<Found>, all: seq<Found>, name: string)
    ensures forall v :: Mentions(chunk, name, v) in CachedMentions(chunk, fs, all) <==>
                        CountName(fs, name) > 0 && v == CountName(all, name)
  {
    if fs == [] {
    } else {
      var init, f := fs[..|fs| - 1], fs[|fs| - 1];
      assert fs == init + [f];
      CachedWeight(chunk, init, all, name);
      CountedNames(fs, name);
      CountedNames(init, name);
      CountedNames(init, f.name);
      assert forall g :: g in fs <==> g in init || g == f;
    }
  }

  // ---- batched inference ----

  function ChunkIds(chunks: seq<Chunk>): (ids: seq<string>)
    ensures |ids| == |chunks| && forall i | 0 <= i < |ids| :: ids[i] == chunks[i].id
  {
    seq(|chunks|, i requires 0 <= i < |chunks| => chunks[i].id)
  }

  /**
   * All segments of all chunks go to the model in one call; what is regrouped under a chunk's id is what
   * extraction takes the model to find in that chunk's text.
   */
  lemma {:induction false} BatchedInference(x: Extractor, chunks: seq<Chunk>, cuts: seq<seq<seq<string>>>, i: nat)
    requires DistinctIds(chunks) && |cuts| == |chunks| && i < |chunks|
    requires forall j | 0 <= j < |chunks| :: cuts[j] == x.cut(chunks[j].text)
    ensures GlinerSegments.OwnedBy(GlinerSegments.Owners(ChunkIds(chunks), cuts),
                                   GlinerSegments.Predict(x.model, GlinerSegments.Concat(cuts)), chunks[i].id)
         == x.Predict(chunks[i].text)
  {
    var ids := ChunkIds(chunks);
    GlinerSegments.RegroupedAll(x.model, ids, cuts, ids[i]);
    GlinerSegments.OwnOfOne(x.model, ids, cuts, i);
  }
}
