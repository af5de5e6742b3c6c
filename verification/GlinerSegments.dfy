/** Cutting chunk texts into model inputs, and regrouping the predictions by chunk. */
module GlinerSegments {
  import opened Sequences

  type Words = seq<string>

  /** A text, as its words and as the sentences the boundary pattern cuts it into. */
  datatype Text = Text(words: Words, sentences: seq<Words>)

  datatype Chunk = Chunk(id: string, text: Text)

  const LIMIT: nat := 320

  function Concat<T>(ss: seq<seq<T>>): seq<T> {
    if ss == [] then [] else Concat(ss[..|ss| - 1]) + ss[|ss| - 1]
  }

  /** The boundary pattern consumes white space only, so sentences keep every word. */
  ghost predicate WellCut(t: Text) {
    Concat(t.sentences) == t.words
  }

  lemma ConcatSnoc<T>(ss: seq<seq<T>>, s: seq<T>)
    ensures Concat(ss + [s]) == Concat(ss) + s
  {
    assert (ss + [s])[..|ss|] == ss;
  }

  lemma {:induction false} ConcatAppend<T>(a: seq<seq<T>>, b: seq<seq<T>>)
    ensures Concat(a + b) == Concat(a) + Concat(b)
  {
    if b == [] {
      assert a + b == a;
    } else {
      var init, last := b[..|b| - 1], b[|b| - 1];
      ConcatAppend(a, init);
      assert (a + b)[..|a + b| - 1] == a + init;
      assert (Concat(a) + Concat(init)) + last == Concat(a) + (Concat(init) + last);
    }
  }

  // ---- segments ----

  /** Segment j holds the sentence s whole, and before s come exactly the words `before`. */
  ghost predicate HeldAt(segments: seq<Words>, s: Words, before: Words, j: nat) {
    j < |segments| && exists p: Words, q: Words :: segments[j] == p + s + q && Concat(segments[..j]) + p == before
  }

  ghost predicate Held(segments: seq<Words>, s: Words, before: Words) {
    exists j: nat :: HeldAt(segments, s, before, j)
  }

  /** Of the first n sentences, each one within the limit is whole in some segment. */
  ghost predicate NoneTorn(sentences: seq<Words>, segments: seq<Words>, n: nat)
    requires n <= |sentences|
  {
    forall i | 0 <= i < n && 0 < |sentences[i]| <= LIMIT :: Held(segments, sentences[i], Concat(sentences[..i]))
  }

  /**
   * What the model needs of a segmentation: every word once and in order, no segment over the limit
   * and no sentence within the limit torn apart.
   */
  ghost predicate Segmentation(t: Text, segments: seq<Words>) {
    && Concat(segments) == t.words
    && segments != []
    && (forall j | 0 <= j < |segments| :: |segments[j]| <= LIMIT)
    && (|t.words| <= LIMIT || NoneTorn(t.sentences, segments, |t.sentences|))
  }

  lemma HeldAfterSnoc(segments: seq<Words>, s: Words, before: Words, j: nat, more: Words)
    requires HeldAt(segments, s, before, j)
    ensures HeldAt(segments + [more], s, before, j)
  {
    assert (segments + [more])[..j] == segments[..j];
  }

  lemma HeldAfterGrowth(segments: seq<Words>, open: Words, s: Words, before: Words, j: nat, more: Words)
    requires HeldAt(segments + [open], s, before, j)
    ensures HeldAt(segments + [open + more], s, before, j)
  {
    var was, now := segments + [open], segments + [open + more];
    assert now[..j] == was[..j];
    var p: Words, q: Words :| was[j] == p + s + q && Concat(was[..j]) + p == before;
    if j == |segments| {
      assert now[j] == p + s + (q + more);
    } else {
      assert now[j] == p + s + q;
    }
  }

  /** More segments behind tear nothing. */
  lemma NoneTornAfterSnoc(sentences: seq<Words>, segments: seq<Words>, n: nat, more: Words)
    requires n <= |sentences| && NoneTorn(sentences, segments, n)
    ensures NoneTorn(sentences, segments + [more], n)
  {
    forall i | 0 <= i < n && 0 < |sentences[i]| <= LIMIT
      ensures Held(segments + [more], sentences[i], Concat(sentences[..i]))
    {
      assert Held(segments, sentences[i], Concat(sentences[..i]));
      var j: nat :| HeldAt(segments, sentences[i], Concat(sentences[..i]), j);
      HeldAfterSnoc(segments, sentences[i], Concat(sentences[..i]), j, more);
    }
  }

  /** Growing the open segment tears nothing. */
  lemma NoneTornAfterGrowth(sentences: seq<Words>, segments: seq<Words>, n: nat, open: Words, more: Words)
    requires n <= |sentences| && NoneTorn(sentences, segments + [open], n)
    ensures NoneTorn(sentences, segments + [open + more], n)
  {
    forall i | 0 <= i < n && 0 < |sentences[i]| <= LIMIT
      ensures Held(segments + [open + more], sentences[i], Concat(sentences[..i]))
    {
      assert Held(segments + [open], sentences[i], Concat(sentences[..i]));
      var j: nat :| HeldAt(segments + [open], sentences[i], Concat(sentences[..i]), j);
      HeldAfterGrowth(segments, open, sentences[i], Concat(sentences[..i]), j, more);
    }
  }

  /** The sentence just put at the end of the last segment is held there. */
  lemma LastIsHeld(sentences: seq<Words>, segments: seq<Words>, open: Words, i: nat)
    requires i < |sentences|
    requires Concat(segments) + open == Concat(sentences[..i])
    ensures HeldAt(segments + [open + sentences[i]], sentences[i], Concat(sentences[..i]), |segments|)
  {
    var all, s := segments + [open + sentences[i]], sentences[i];
    assert all[..|segments|] == segments;
    assert all[|segments|] == open + s + [];
  }

  /** One long sentence, cut every `LIMIT` words. */
  method Slices(sentence: Words) returns (slices: seq<Words>)
    ensures Concat(slices) == sentence
    ensures forall j | 0 <= j < |slices| :: 0 < |slices[j]| <= 320
    ensures forall j | 0 <= j < |slices| - 1 :: |slices[j]| == 320
    ensures |sentence| > 320 ==> |slices| > 1
  {
    slices := [];
    var start := 0;
    while start < |sentence|
      invariant start <= |sentence| ==> Concat(slices) == sentence[..start]
      invariant start > |sentence| ==> Concat(slices) == sentence
      invariant forall j | 0 <= j < |slices| :: 0 < |slices[j]| <= LIMIT
      invariant start <= |sentence| ==> forall j | 0 <= j < |slices| :: |slices[j]| == LIMIT
      invariant forall j | 0 <= j < |slices| - 1 :: |slices[j]| == LIMIT
      invariant start == |slices| * LIMIT
    {
      var end := if start + LIMIT < |sentence| then start + LIMIT else |sentence|;
      ConcatSnoc(slices, sentence[start..end]);
      assert sentence[..start] + sentence[start..end] == sentence[..end];
      assert sentence[..|sentence|] == sentence;
      slices := slices + [sentence[start..end]];
      start := start + LIMIT;
    }
    assert sentence[..|sentence|] == sentence;
  }

  lemma {:induction false} NoneTornAfterAll(sentences: seq<Words>, segments: seq<Words>, n: nat, more: seq<Words>)
    requires n <= |sentences| && NoneTorn(sentences, segments, n)
    ensures NoneTorn(sentences, segments + more, n)
  {
    if more == [] {
      assert segments + more == segments;
    } else {
      var init, last := more[..|more| - 1], more[|more| - 1];
      NoneTornAfterAll(sentences, segments, n, init);
      NoneTornAfterSnoc(sentences, segments + init, n, last);
      assert segments + more == segments + init + [last];
    }
  }

  /** Closing the open segment, or dropping it when it is empty, tears nothing. */
  lemma Flushed(sentences: seq<Words>, segments: seq<Words>, open: Words, n: nat)
    requires n <= |sentences| && NoneTorn(sentences, segments + [open], n)
    ensures NoneTorn(sentences, if open == [] then segments else segments + [open], n)
  {
    if open == [] {
      forall i | 0 <= i < n && 0 < |sentences[i]| <= LIMIT
        ensures Held(segments, sentences[i], Concat(sentences[..i]))
      {
        var s, before := sentences[i], Concat(sentences[..i]);
        assert Held(segments + [open], s, before);
        var j: nat :| HeldAt(segments + [open], s, before, j);
        var p: Words, q: Words :|
          (segments + [open])[j] == p + s + q && Concat((segments + [open])[..j]) + p == before;
        assert j < |segments|;
        assert (segments + [open])[..j] == segments[..j];
        assert segments[j] == p + s + q;
        assert HeldAt(segments, s, before, j);
      }
    }
  }

  /** Closed segments and the open one after n sentences. */
  ghost predicate Filling(sentences: seq<Words>, segments: seq<Words>, open: Words, n: nat)
    requires n <= |sentences|
  {
    && Concat(segments) + open == Concat(sentences[..n])
    && |open| <= LIMIT
    && (forall j | 0 <= j < |segments| :: 0 < |segments[j]| <= LIMIT)
    && NoneTorn(sentences, segments + [open], n)
  }

  function Closed(segments: seq<Words>, open: Words): seq<Words> {
    if open == [] then segments else segments + [open]
  }

  lemma Close(sentences: seq<Words>, segments: seq<Words>, open: Words, n: nat)
    requires n <= |sentences| && Filling(sentences, segments, open, n)
    ensures Filling(sentences, Closed(segments, open), [], n)
    ensures NoneTorn(sentences, Closed(segments, open), n)
  {
    ConcatSnoc(segments, open);
    Flushed(sentences, segments, open, n);
    NoneTornAfterSnoc(sentences, Closed(segments, open), n, []);
  }

  lemma AddBlank(sentences: seq<Words>, segments: seq<Words>, open: Words, n: nat)
    requires n < |sentences| && sentences[n] == [] && Filling(sentences, segments, open, n)
    ensures Filling(sentences, segments, open, n + 1)
  {
    assert sentences[..n + 1] == sentences[..n] + [sentences[n]];
    ConcatSnoc(sentences[..n], sentences[n]);
  }

  lemma NoneTornNext(sentences: seq<Words>, segments: seq<Words>, n: nat)
    requires n < |sentences| && NoneTorn(sentences, segments, n)
    requires 0 < |sentences[n]| <= LIMIT ==> Held(segments, sentences[n], Concat(sentences[..n]))
    ensures NoneTorn(sentences, segments, n + 1)
  {
  }

  lemma AddShort(sentences: seq<Words>, segments: seq<Words>, open: Words, n: nat)
    requires n < |sentences| && |open| + |sentences[n]| <= LIMIT && Filling(sentences, segments, open, n)
    ensures Filling(sentences, segments, open + sentences[n], n + 1)
  {
    assert sentences[..n + 1] == sentences[..n] + [sentences[n]];
    ConcatSnoc(sentences[..n], sentences[n]);
    NoneTornAfterGrowth(sentences, segments, n, open, sentences[n]);
    LastIsHeld(sentences, segments, open, n);
    NoneTornNext(sentences, segments + [open + sentences[n]], n);
  }

  lemma WordsAfterSlices(sentences: seq<Words>, segments: seq<Words>, slices: seq<Words>, n: nat)
    requires n < |sentences| && Concat(slices) == sentences[n] && Concat(segments) == Concat(sentences[..n])
    ensures Concat(segments + slices) == Concat(sentences[..n + 1])
  {
    assert sentences[..n + 1] == sentences[..n] + [sentences[n]];
    ConcatSnoc(sentences[..n], sentences[n]);
    ConcatAppend(segments, slices);
  }

  lemma {:induction false} AddLong(sentences: seq<Words>, segments: seq<Words>, slices: seq<Words>, n: nat)
    requires n < |sentences| && |sentences[n]| > LIMIT && Concat(slices) == sentences[n]
    requires forall j | 0 <= j < |slices| :: 0 < |slices[j]| <= LIMIT
    requires Filling(sentences, segments, [], n) && NoneTorn(sentences, segments, n)
    ensures Filling(sentences, segments + slices, [], n + 1)
  {
    WordsAfterSlices(sentences, segments, slices, n);
    NoneTornAfterAll(sentences, segments, n, slices);
    NoneTornAfterSnoc(sentences, segments + slices, n, []);
    NoneTornNext(sentences, segments + slices + [[]], n);
  }

  // ---- no more segments than needed ----

  /** Segment j ends with the last slice of a cut sentence. */
  ghost predicate EndsLong(sentences: seq<Words>, segments: seq<Words>, j: nat)
    requires j < |segments|
  {
    exists k :: 0 <= k < |sentences| && |sentences[k]| > LIMIT
                && Concat(segments[..j + 1]) == Concat(sentences[..k + 1])
  }

  /** Two neighbours never fit into one segment, except behind the last slice of a cut sentence. */
  ghost predicate Tight(sentences: seq<Words>, segments: seq<Words>) {
    forall j | 0 <= j < |segments| - 1 :: TightAt(sentences, segments, j)
  }

  ghost predicate TightAt(sentences: seq<Words>, segments: seq<Words>, j: nat)
    requires j + 1 < |segments|
  {
    |segments[j]| + |segments[j + 1]| > LIMIT || EndsLong(sentences, segments, j)
  }

  /** Without an open segment, the last closed one is the end of a cut sentence. */
  ghost predicate Packed(sentences: seq<Words>, segments: seq<Words>, open: Words) {
    && Tight(sentences, Closed(segments, open))
    && (open == [] && segments != [] ==> EndsLong(sentences, segments, |segments| - 1))
  }

  /** Tightness looks at nothing but lengths and the segments before. */
  lemma TightAgain(sentences: seq<Words>, before: seq<Words>, after: seq<Words>, j: nat)
    requires j + 1 < |before| && j + 1 < |after| && TightAt(sentences, before, j)
    requires before[..j + 1] == after[..j + 1] && |before[j + 1]| <= |after[j + 1]|
    ensures TightAt(sentences, after, j)
  {
    assert before[j] == before[..j + 1][j] == after[..j + 1][j] == after[j];
  }

  lemma PackShort(sentences: seq<Words>, segments: seq<Words>, open: Words, s: Words)
    requires Packed(sentences, segments, open) && s != []
    ensures Packed(sentences, segments, open + s)
  {
    var was, now := Closed(segments, open), segments + [open + s];
    forall j | 0 <= j < |now| - 1
      ensures TightAt(sentences, now, j)
    {
      if j + 1 < |was| {
        assert TightAt(sentences, was, j);
        assert was[..j + 1] == now[..j + 1];
        TightAgain(sentences, was, now, j);
      } else {
        assert now[..j + 1] == segments[..j + 1];
      }
    }
  }

  lemma PackNext(sentences: seq<Words>, segments: seq<Words>, open: Words, s: Words)
    requires Packed(sentences, segments, open) && open != [] && |open| + |s| > LIMIT && s != []
    ensures Packed(sentences, segments + [open], s)
  {
    var was, now := segments + [open], segments + [open] + [s];
    forall j | 0 <= j < |now| - 1
      ensures TightAt(sentences, now, j)
    {
      if j + 1 < |was| {
        assert TightAt(sentences, was, j);
        assert was[..j + 1] == now[..j + 1];
        TightAgain(sentences, was, now, j);
      }
    }
  }

  lemma PackLong(sentences: seq<Words>, segments: seq<Words>, open: Words, slices: seq<Words>, n: nat)
    requires n < |sentences| && |sentences[n]| > LIMIT && Packed(sentences, segments, open)
    requires slices != [] && (forall j | 0 <= j < |slices| :: 0 < |slices[j]|)
    requires forall j | 0 <= j < |slices| - 1 :: |slices[j]| == LIMIT
    requires |slices| > 1 && forall j | 0 <= j < |segments| :: 0 < |segments[j]|
    requires Concat(Closed(segments, open) + slices) == Concat(sentences[..n + 1])
    ensures Packed(sentences, Closed(segments, open) + slices, [])
  {
    var was, now := Closed(segments, open), Closed(segments, open) + slices;
    forall j | 0 <= j < |now| - 1
      ensures TightAt(sentences, now, j)
    {
      if j + 1 < |was| {
        assert TightAt(sentences, was, j);
        assert was[..j + 1] == now[..j + 1];
        TightAgain(sentences, was, now, j);
      } else if j < |was| {
        assert now[j + 1] == slices[0];
      } else {
        assert now[j] == slices[j - |was|] && now[j + 1] == slices[j + 1 - |was|];
      }
    }
    assert now[..|now|] == now;
  }

  /** The loop's state after n sentences. */
  ghost predicate Cut(sentences: seq<Words>, segments: seq<Words>, open: Words, n: nat)
    requires n <= |sentences|
  {
    Filling(sentences, segments, open, n) && Packed(sentences, segments, open)
  }

  lemma CutBlank(sentences: seq<Words>, segments: seq<Words>, open: Words, n: nat)
    requires n < |sentences| && Cut(sentences, segments, open, n) && sentences[n] == []
    ensures Cut(sentences, segments, open, n + 1)
  {
    AddBlank(sentences, segments, open, n);
  }

  lemma {:induction false} CutShort(sentences: seq<Words>, segments: seq<Words>, open: Words, n: nat)
    requires n < |sentences| && Cut(sentences, segments, open, n) && 0 < |sentences[n]| <= LIMIT - |open|
    ensures Cut(sentences, segments, open + sentences[n], n + 1)
  {
    PackShort(sentences, segments, open, sentences[n]);
    AddShort(sentences, segments, open, n);
  }

  lemma {:induction false} CutNext(sentences: seq<Words>, segments: seq<Words>, open: Words, n: nat)
    requires n < |sentences| && Cut(sentences, segments, open, n) && open != []
    requires 0 < |sentences[n]| <= LIMIT < |open| + |sentences[n]|
    ensures Cut(sentences, segments + [open], [] + sentences[n], n + 1)
  {
    Close(sentences, segments, open, n);
    AddShort(sentences, segments + [open], [], n);
    assert [] + sentences[n] == sentences[n];
    PackNext(sentences, segments, open, sentences[n]);
  }

  lemma CutLong(sentences: seq<Words>, segments: seq<Words>, open: Words, slices: seq<Words>, n: nat)
    requires n < |sentences| && |sentences[n]| > LIMIT && Cut(sentences, segments, open, n)
    requires Concat(slices) == sentences[n] && |slices| > 1
    requires forall j | 0 <= j < |slices| :: 0 < |slices[j]| <= LIMIT
    requires forall j | 0 <= j < |slices| - 1 :: |slices[j]| == LIMIT
    ensures Cut(sentences, Closed(segments, open) + slices, [], n + 1)
  {
    var closed := Closed(segments, open);
    Close(sentences, segments, open, n);
    AddLong(sentences, closed, slices, n);
    assert Concat(closed) + [] == Concat(closed);
    WordsAfterSlices(sentences, closed, slices, n);
    PackLong(sentences, segments, open, slices, n);
  }

  lemma {:induction false} WholeText(t: Text)
    requires WellCut(t) && |t.words| <= LIMIT
    ensures Segmentation(t, [t.words])
  {
    ConcatSnoc([], t.words);
  }

  lemma CutStarts(sentences: seq<Words>)
    ensures Cut(sentences, [], [], 0)
  {
  }

  lemma {:induction false} CutEnds(t: Text, segments: seq<Words>, open: Words)
    requires WellCut(t) && |t.words| > LIMIT && Cut(t.sentences, segments, open, |t.sentences|)
    ensures Segmentation(t, Closed(segments, open)) && Tight(t.sentences, Closed(segments, open))
    ensures forall j | 0 <= j < |Closed(segments, open)| :: Closed(segments, open)[j] != []
  {
    assert t.sentences[..|t.sentences|] == t.sentences;
    Close(t.sentences, segments, open, |t.sentences|);
  }

  /** `_split_for_gliner`. */
  method Split(t: Text) returns (segments: seq<Words>)
    requires WellCut(t)
    ensures Segmentation(t, segments)
    ensures |t.words| <= LIMIT ==> segments == [t.words]
    ensures |t.words| > LIMIT ==> forall j | 0 <= j < |segments| :: segments[j] != []
    ensures |t.words| > LIMIT ==> Tight(t.sentences, segments)
  {
    if |t.words| <= LIMIT {
      WholeText(t);
      return [t.words];
    }
    segments := [];
    var open: Words := [];
    CutStarts(t.sentences);
    for i := 0 to |t.sentences|
      invariant Cut(t.sentences, segments, open, i)
    {
      var sentence := t.sentences[i];
      if sentence == [] {
        CutBlank(t.sentences, segments, open, i);
        continue;
      }
      if |sentence| > LIMIT {
        var slices := Slices(sentence);
        CutLong(t.sentences, segments, open, slices, i);
        segments, open := Closed(segments, open), [];
        segments := segments + slices;
        continue;
      }
      if open != [] && |open| + |sentence| > LIMIT {
        CutNext(t.sentences, segments, open, i);
        segments, open := segments + [open], [];
      } else {
        CutShort(t.sentences, segments, open, i);
      }
      open := open + sentence;
    }
    CutEnds(t, segments, open);
    segments := Closed(segments, open);
  }

  // ---- regrouping ----

  /** One owner id per segment. */
  function Owners(ids: seq<string>, cuts: seq<seq<Words>>): (owners: seq<string>)
    requires |ids| == |cuts|
    ensures |owners| == |Concat(cuts)|
  {
    if ids == [] then []
    else
      RepeatLength(ids[|ids| - 1], |cuts[|ids| - 1]|);
      Owners(ids[..|ids| - 1], cuts[..|ids| - 1]) + Repeat(ids[|ids| - 1], |cuts[|ids| - 1]|)
  }

  /** The concatenated predictions of the segments one id owns, in order. */
  function OwnedBy<P>(owners: seq<string>, predictions: seq<seq<P>>, id: string): seq<P>
    requires |owners| == |predictions|
  {
    if owners == [] then []
    else
      OwnedBy(owners[..|owners| - 1], predictions[..|owners| - 1], id)
      + if owners[|owners| - 1] == id then predictions[|owners| - 1] else []
  }

  function Predict<P>(model: Words -> seq<P>, segments: seq<Words>): (r: seq<seq<P>>)
    ensures |r| == |segments| && forall j | 0 <= j < |r| :: r[j] == model(segments[j])
  {
    seq(|segments|, j requires 0 <= j < |segments| => model(segments[j]))
  }

  function Ids(chunks: seq<Chunk>): (ids: seq<string>)
    ensures |ids| == |chunks| && forall i | 0 <= i < |ids| :: ids[i] == chunks[i].id
  {
    seq(|chunks|, i requires 0 <= i < |chunks| => chunks[i].id)
  }

  lemma {:induction false} OwnersSnoc(ids: seq<string>, cuts: seq<seq<Words>>, i: nat, cut: seq<Words>)
    requires i == |cuts| < |ids|
    ensures Owners(ids[..i + 1], cuts + [cut]) == Owners(ids[..i], cuts) + Repeat(ids[i], |cut|)
  {
    assert ids[..i + 1][..i] == ids[..i] && (cuts + [cut])[..i] == cuts;
  }

  /** What the segments of a chunk list are cut from: each chunk's own segmentation. */
  ghost predicate CutsOf(chunks: seq<Chunk>, cuts: seq<seq<Words>>) {
    |cuts| == |chunks| && forall i | 0 <= i < |chunks| :: Segmentation(chunks[i].text, cuts[i])
  }

  /** `_segments_for_chunks`. */
  method SegmentsForChunks(chunks: seq<Chunk>) returns (segments: seq<Words>, owners: seq<string>)
    requires forall i | 0 <= i < |chunks| :: WellCut(chunks[i].text)
    ensures exists cuts :: CutsOf(chunks, cuts) && segments == Concat(cuts) && owners == Owners(Ids(chunks), cuts)
  {
    segments, owners := [], [];
    ghost var cuts: seq<seq<Words>> := [];
    for i := 0 to |chunks|
      invariant |cuts| == i && segments == Concat(cuts) && owners == Owners(Ids(chunks)[..i], cuts)
      invariant forall k | 0 <= k < i :: Segmentation(chunks[k].text, cuts[k])
    {
      var cut := Split(chunks[i].text);
      ConcatSnoc(cuts, cut);
      OwnersSnoc(Ids(chunks), cuts, i, cut);
      cuts := cuts + [cut];
      segments := segments + cut;
      owners := owners + Repeat(chunks[i].id, |cut|);
    }
    assert Ids(chunks)[..|chunks|] == Ids(chunks);
    assert CutsOf(chunks, cuts);
  }

  lemma OwnedStep<P>(owners: seq<string>, predictions: seq<seq<P>>, j: nat, id: string)
    requires |owners| == |predictions| && j < |owners|
    ensures OwnedBy(owners[..j + 1], predictions[..j + 1], id) ==
            OwnedBy(owners[..j], predictions[..j], id) + if owners[j] == id then predictions[j] else []
  {
    assert owners[..j + 1][..j] == owners[..j] && predictions[..j + 1][..j] == predictions[..j];
  }

  function Get<P>(byChunk: map<string, seq<P>>, id: string): seq<P> {
    if id in byChunk then byChunk[id] else []
  }

  /** `_predictions_by_chunk`. */
  method PredictionsByChunk<P>(owners: seq<string>, predictions: seq<seq<P>>) returns (byChunk: map<string, seq<P>>)
    requires |owners| == |predictions|
    ensures forall id :: Get(byChunk, id) == OwnedBy(owners, predictions, id)
  {
    byChunk := map[];
    for j := 0 to |owners|
      invariant forall id :: Get(byChunk, id) == OwnedBy(owners[..j], predictions[..j], id)
    {
      var owner, was := owners[j], byChunk;
      byChunk := byChunk[owner := Get(byChunk, owner) + predictions[j]];
      forall id
        ensures Get(byChunk, id) == OwnedBy(owners[..j + 1], predictions[..j + 1], id)
      {
        OwnedStep(owners, predictions, j, id);
        assert Get(was, id) == OwnedBy(owners[..j], predictions[..j], id);
      }
    }
    assert owners[..|owners|] == owners && predictions[..|owners|] == predictions;
  }

  function Repeat(owner: string, n: nat): seq<string> {
    if n == 0 then [] else Repeat(owner, n - 1) + [owner]
  }

  lemma {:induction false} RepeatLength(owner: string, n: nat)
    ensures |Repeat(owner, n)| == n
  {
    if n == 0 {
    } else {
      RepeatLength(owner, n - 1);
    }
  }

  lemma OwnedSnoc<P>(owners: seq<string>, predictions: seq<seq<P>>, owner: string, ps: seq<P>, id: string)
    requires |owners| == |predictions|
    ensures OwnedBy(owners + [owner], predictions + [ps], id) ==
            OwnedBy(owners, predictions, id) + if id == owner then ps else []
  {
    assert (owners + [owner])[..|owners|] == owners && (predictions + [ps])[..|owners|] == predictions;
  }

  /** A stretch of segments with one owner gives all of its predictions to that owner. */
  lemma {:induction false} OwnedStretch<P>(
    owners: seq<string>, predictions: seq<seq<P>>, owner: string, more: seq<seq<P>>, id: string)
    requires |owners| == |predictions|
    ensures |Repeat(owner, |more|)| == |more|
    ensures OwnedBy(owners + Repeat(owner, |more|), predictions + more, id) ==
            OwnedBy(owners, predictions, id) + if id == owner then Concat(more) else []
  {
    RepeatLength(owner, |more|);
    if more == [] {
      assert owners + Repeat(owner, 0) == owners && predictions + more == predictions;
    } else {
      var n, init := |more| - 1, more[..|more| - 1];
      OwnedStretch(owners, predictions, owner, init, id);
      Associative(owners, Repeat(owner, n), [owner]);
      Associative(predictions, init, [more[n]]);
      assert more == init + [more[n]];
      OwnedSnoc(owners + Repeat(owner, n), predictions + init, owner, more[n], id);
      if id == owner {
        Associative(OwnedBy(owners, predictions, id), Concat(init), more[n]);
      }
    }
  }

  /** The predictions of all chunks with an id, chunk by chunk. */
  ghost function Own<P>(model: Words -> seq<P>, ids: seq<string>, cuts: seq<seq<Words>>, id: string): seq<P>
    requires |ids| == |cuts|
  {
    if ids == [] then []
    else
      var n := |ids| - 1;
      Own(model, ids[..n], cuts[..n], id) + if ids[n] == id then Concat(Predict(model, cuts[n])) else []
  }

  lemma {:induction false} RegroupedAll<P>(model: Words -> seq<P>, ids: seq<string>, cuts: seq<seq<Words>>, id: string)
    requires |ids| == |cuts|
    ensures OwnedBy(Owners(ids, cuts), Predict(model, Concat(cuts)), id) == Own(model, ids, cuts, id)
  {
    if ids == [] {
    } else {
      var n := |ids| - 1;
      RegroupedAll(model, ids[..n], cuts[..n], id);
      var more := Predict(model, cuts[n]);
      OwnedStretch(Owners(ids[..n], cuts[..n]), Predict(model, Concat(cuts[..n])), ids[n], more, id);
      assert Predict(model, Concat(cuts)) == Predict(model, Concat(cuts[..n])) + more;
    }
  }

  lemma {:induction false} OwnOfOne<P>(
    model: Words -> seq<P>, ids: seq<string>, cuts: seq<seq<Words>>, i: nat)
    requires |ids| == |cuts| && i < |ids|
    requires forall j, k | 0 <= j < k < |ids| :: ids[j] != ids[k]
    ensures Own(model, ids, cuts, ids[i]) == Concat(Predict(model, cuts[i]))
  {
    var n := |ids| - 1;
    if i < n {
      OwnOfOne(model, ids[..n], cuts[..n], i);
    } else {
      OwnOfNone(model, ids[..n], cuts[..n], ids[n]);
    }
  }

  lemma {:induction false} OwnOfNone<P>(
    model: Words -> seq<P>, ids: seq<string>, cuts: seq<seq<Words>>, id: string)
    requires |ids| == |cuts| && id !in ids
    ensures Own(model, ids, cuts, id) == []
  {
    if ids == [] {
    } else {
      OwnOfNone(model, ids[..|ids| - 1], cuts[..|ids| - 1], id);
    }
  }

  /**
   * Predictions regrouped by chunk are exactly those of the chunk's own segments, in order, when chunk
   * ids are distinct.
   */
  lemma {:induction false} RegroupedByChunk<P>(
    model: Words -> seq<P>, chunks: seq<Chunk>, cuts: seq<seq<Words>>, i: nat)
    requires |cuts| == |chunks| && i < |chunks|
    requires forall j, k | 0 <= j < k < |chunks| :: chunks[j].id != chunks[k].id
    ensures OwnedBy(Owners(Ids(chunks), cuts), Predict(model, Concat(cuts)), chunks[i].id)
         == Concat(Predict(model, cuts[i]))
  {
    RegroupedAll(model, Ids(chunks), cuts, chunks[i].id);
    OwnOfOne(model, Ids(chunks), cuts, i);
  }
}
