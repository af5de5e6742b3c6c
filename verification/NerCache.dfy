/** Entity extraction with and without the per-chunk cache. */
module NerCache {
  import opened Sequences
  import GlinerSegments

  datatype Chunk = Chunk(id: string, text: string)

  /** One model prediction: the span text and its label. */
  datatype Prediction = Prediction(text: string, kind: string)

  /** How texts are cut for the model, the model on one segment, and the string operations on its spans. */
  datatype Extractor = Extractor(
    cut: string -> seq<seq<string>>, model: seq<string> -> seq<Prediction>,
    strip: string -> string, lower: string -> string)
  {
    /** What the model finds in a text: the predictions of its segments, in order. */
    function Predict(text: string): seq<Prediction> {
      GlinerSegments.Concat(GlinerSegments.Predict(model, cut(text)))
    }
  }

  /** An entity as it is cached: no chunk ids. */
  datatype Found = Found(name: string, kind: string)

  type Key = (string, string)

  datatype Entity = Entity(name: string, kind: string, chunkIds: seq<string>)

  datatype Relation = CoOccurs(source: string, target: string) | Mentions(chunk: string, name: string, weight: nat)

  datatype Result = Result(entities: seq<Entity>, relations: seq<Relation>)

  datatype Entry = Entry(entities: seq<Found>, pairs: seq<Relation>)

  function KeyOf(x: Extractor, name: string, kind: string): Key {
    (x.lower(name), x.lower(kind))
  }

  function FoundKey(x: Extractor, f: Found): Key {
    KeyOf(x, f.name, f.kind)
  }

  // ---- what one text gives ----

  /** Stripped, non-empty spans, in order. */
  function Spans(x: Extractor, ps: seq<Prediction>): seq<Found> {
    if ps == [] then []
    else
      var before := Spans(x, ps[..|ps| - 1]);
      var p := ps[|ps| - 1];
      var name := x.strip(p.text);
      if name == "" then before else before + [Found(name, p.kind)]
  }

  function Keys(x: Extractor, fs: seq<Found>): set<Key> {
    set f | f in fs :: FoundKey(x, f)
  }

  /** The first span of every key, in order. */
  function Firsts(x: Extractor, fs: seq<Found>): seq<Found> {
    if fs == [] then []
    else
      var before := Firsts(x, fs[..|fs| - 1]);
      var f := fs[|fs| - 1];
      if FoundKey(x, f) in Keys(x, before) then before else before + [f]
  }

  function EntitiesOf(x: Extractor, text: string): seq<Found> {
    Firsts(x, Spans(x, x.Predict(text)))
  }

  /** CO_OCCURS of one entity with every later one. */
  function PairsWith(a: Found, rest: seq<Found>): seq<Relation> {
    if rest == [] then [] else [CoOccurs(a.name, rest[0].name)] + PairsWith(a, rest[1..])
  }

  /** `combinations(unique_keys, 2)`. */
  function Pairs(fs: seq<Found>): seq<Relation> {
    if fs == [] then [] else PairsWith(fs[0], fs[1..]) + Pairs(fs[1..])
  }

  // ---- what pairs and entities are ----

  /** Where `combinations` puts the pair of items i and j of n. */
  function Place(n: nat, i: nat, j: nat): nat
    requires i < j < n
  {
    if i == 0 then j - 1 else n - 1 + Place(n - 1, i - 1, j - 1)
  }

  /** One CO_OCCURS for every two entities, the earlier one first, and no other: n (n - 1) / 2 in all. */
  ghost predicate AreCombinations(fs: seq<Found>, pairs: seq<Relation>) {
    && 2 * |pairs| == |fs| * (|fs| - 1)
    && (forall i, j | 0 <= i < j < |fs| ::
          Place(|fs|, i, j) < |pairs| && pairs[Place(|fs|, i, j)] == CoOccurs(fs[i].name, fs[j].name))
    && (forall k | 0 <= k < |pairs| :: IsPair(fs, pairs[k], k))
  }

  ghost predicate IsPair(fs: seq<Found>, pair: Relation, k: nat) {
    exists i, j :: 0 <= i < j < |fs| && Place(|fs|, i, j) == k && pair == CoOccurs(fs[i].name, fs[j].name)
  }

  lemma {:induction false} PairsWithAt(a: Found, rest: seq<Found>)
    ensures |PairsWith(a, rest)| == |rest|
    ensures forall k | 0 <= k < |rest| :: PairsWith(a, rest)[k] == CoOccurs(a.name, rest[k].name)
  {
    if rest == [] {
    } else {
      PairsWithAt(a, rest[1..]);
    }
  }

  lemma {:induction false} PairsCount(fs: seq<Found>)
    ensures 2 * |Pairs(fs)| == |fs| * (|fs| - 1)
  {
    if fs == [] {
    } else {
      PairsCount(fs[1..]);
      PairsWithAt(fs[0], fs[1..]);
      TriangleGrows(|fs|);
    }
  }

  lemma TriangleGrows(n: nat)
    requires n > 0
    ensures 2 * (n - 1) + (n - 1) * (n - 2) == n * (n - 1)
  {
  }

  lemma {:induction false} PairsAt(fs: seq<Found>, i: nat, j: nat)
    requires i < j < |fs|
    ensures Place(|fs|, i, j) < |Pairs(fs)|
    ensures Pairs(fs)[Place(|fs|, i, j)] == CoOccurs(fs[i].name, fs[j].name)
  {
    var rest := fs[1..];
    PairsWithAt(fs[0], rest);
    if i > 0 {
      PairsAt(rest, i - 1, j - 1);
      assert Pairs(fs)[|rest|..] == Pairs(rest);
    }
  }

  lemma {:induction false} PairAt(fs: seq<Found>, k: nat)
    requires k < |Pairs(fs)|
    ensures IsPair(fs, Pairs(fs)[k], k)
  {
    var rest := fs[1..];
    PairsWithAt(fs[0], rest);
    if k < |rest| {
      assert Place(|fs|, 0, k + 1) == k;
    } else {
      PairAt(rest, k - |rest|);
      assert Pairs(fs)[k] == Pairs(rest)[k - |rest|];
      var i, j :| 0 <= i < j < |rest| && Place(|rest|, i, j) == k - |rest|
                  && Pairs(rest)[k - |rest|] == CoOccurs(rest[i].name, rest[j].name);
      assert Place(|fs|, i + 1, j + 1) == k;
    }
  }

  lemma PairsAreCombinations(fs: seq<Found>)
    ensures AreCombinations(fs, Pairs(fs))
  {
    PairsCount(fs);
    forall i, j | 0 <= i < j < |fs|
      ensures Place(|fs|, i, j) < |Pairs(fs)|
      ensures Pairs(fs)[Place(|fs|, i, j)] == CoOccurs(fs[i].name, fs[j].name)
    {
      PairsAt(fs, i, j);
    }
    forall k | 0 <= k < |Pairs(fs)|
      ensures IsPair(fs, Pairs(fs)[k], k)
    {
      PairAt(fs, k);
    }
  }

  /** The spans of some predictions: the non-empty stripped ones, in order, with their labels. */
  ghost predicate AreSpans(x: Extractor, ps: seq<Prediction>, spans: seq<Found>) {
    if ps == [] then spans == []
    else
      var p := ps[0];
      if x.strip(p.text) == "" then AreSpans(x, ps[1..], spans)
      else spans != [] && spans[0] == Found(x.strip(p.text), p.kind) && AreSpans(x, ps[1..], spans[1..])
  }

  /** Two entities are one when name and label agree in lower case. */
  predicate SameEntity(x: Extractor, f: Found, g: Found) {
    x.lower(f.name) == x.lower(g.name) && x.lower(f.kind) == x.lower(g.kind)
  }

  /** The unique entities of some spans: each the first span of its kind, all kinds, in order. */
  ghost predicate AreFirsts(x: Extractor, spans: seq<Found>, fs: seq<Found>) {
    exists at: seq<nat> :: FirstsAt(x, spans, fs, at)
  }

  ghost predicate FirstsAt(x: Extractor, spans: seq<Found>, fs: seq<Found>, at: seq<nat>) {
    && |at| == |fs|
    && (forall k | 0 <= k < |at| :: at[k] < |spans| && fs[k] == spans[at[k]])
    && (forall j, k | 0 <= j < k < |at| :: at[j] < at[k])
    && (forall i | 0 <= i < |spans| :: i in at <==> forall j | 0 <= j < i :: !SameEntity(x, spans[j], spans[i]))
  }

  lemma {:induction false} FirstsMean(x: Extractor, spans: seq<Found>)
    ensures AreFirsts(x, spans, Firsts(x, spans))
  {
    if spans == [] {
      var at: seq<nat> := [];
      assert FirstsAt(x, spans, Firsts(x, spans), at);
    } else {
      var init, last := spans[..|spans| - 1], spans[|spans| - 1];
      FirstsMean(x, init);
      assert spans == init + [last];
      FirstsStep(x, init, last);
      FirstsKeepKeys(x, init);
      OneMoreSpan(x, init, last, Firsts(x, init));
    }
  }

  lemma OneMoreSpan(x: Extractor, init: seq<Found>, last: Found, fs: seq<Found>)
    requires AreFirsts(x, init, fs) && Keys(x, fs) == Keys(x, init)
    ensures AreFirsts(x, init + [last], if FoundKey(x, last) in Keys(x, fs) then fs else fs + [last])
  {
    var at: seq<nat> :| FirstsAt(x, init, fs, at);
    SeenBefore(x, init, last);
    if FoundKey(x, last) in Keys(x, fs) {
      NotAnother(x, init, last, fs, at);
    } else {
      AnotherFirst(x, init, last, fs, at);
    }
  }

  lemma NotAnother(x: Extractor, init: seq<Found>, last: Found, fs: seq<Found>, at: seq<nat>)
    requires FirstsAt(x, init, fs, at) && exists j :: 0 <= j < |init| && SameEntity(x, init[j], last)
    ensures FirstsAt(x, init + [last], fs, at)
  {
    var spans := init + [last];
    assert forall i | 0 <= i < |init| :: spans[i] == init[i];
    forall i | 0 <= i < |spans|
      ensures i in at <==> forall j | 0 <= j < i :: !SameEntity(x, spans[j], spans[i])
    {
      if i == |init| {
        var j :| 0 <= j < |init| && SameEntity(x, init[j], last);
        assert SameEntity(x, spans[j], spans[i]);
        assert forall k | 0 <= k < |at| :: at[k] < |init|;
      }
    }
  }

  lemma AnotherFirst(x: Extractor, init: seq<Found>, last: Found, fs: seq<Found>, at: seq<nat>)
    requires FirstsAt(x, init, fs, at) && forall j | 0 <= j < |init| :: !SameEntity(x, init[j], last)
    ensures FirstsAt(x, init + [last], fs + [last], at + [|init|])
  {
    var spans, at' := init + [last], at + [|init|];
    assert forall i | 0 <= i < |init| :: spans[i] == init[i];
    forall i | 0 <= i < |spans|
      ensures i in at' <==> forall j | 0 <= j < i :: !SameEntity(x, spans[j], spans[i])
    {
      assert i in at' <==> i in at || i == |init|;
    }
  }

  lemma SeenBefore(x: Extractor, init: seq<Found>, last: Found)
    ensures FoundKey(x, last) in Keys(x, init) <==> exists j :: 0 <= j < |init| && SameEntity(x, init[j], last)
  {
    if FoundKey(x, last) in Keys(x, init) {
      var f :| f in init && FoundKey(x, f) == FoundKey(x, last);
      var j :| 0 <= j < |init| && init[j] == f;
      assert SameEntity(x, init[j], last);
    }
    if j :| 0 <= j < |init| && SameEntity(x, init[j], last) {
      assert init[j] in init;
    }
  }

  lemma {:induction false} SpansConcat(x: Extractor, a: seq<Prediction>, b: seq<Prediction>)
    ensures Spans(x, a + b) == Spans(x, a) + Spans(x, b)
  {
    if b == [] {
      assert a + b == a;
    } else {
      assert (a + b)[..|a + b| - 1] == a + b[..|b| - 1];
      SpansConcat(x, a, b[..|b| - 1]);
    }
  }

  lemma {:induction false} SpansMean(x: Extractor, ps: seq<Prediction>)
    ensures AreSpans(x, ps, Spans(x, ps))
  {
    if ps == [] {
    } else {
      assert ps == [ps[0]] + ps[1..];
      SpansConcat(x, [ps[0]], ps[1..]);
      SpansOfOne(x, ps[0]);
      SpansMean(x, ps[1..]);
      var tail := Spans(x, ps[1..]);
      if x.strip(ps[0].text) == "" {
        assert Spans(x, ps) == tail;
      } else {
        assert Spans(x, ps) == [Found(x.strip(ps[0].text), ps[0].kind)] + tail;
        assert Spans(x, ps)[1..] == tail;
      }
    }
  }

  lemma SpansOfOne(x: Extractor, p: Prediction)
    ensures Spans(x, [p]) == if x.strip(p.text) == "" then [] else [Found(x.strip(p.text), p.kind)]
  {
    assert [p][..0] == [] && Spans(x, []) == [];
  }

  /** How many spans carry a name. */
  ghost function At(fs: seq<Found>, name: string): set<nat> {
    set i: nat | i < |fs| && fs[i].name == name
  }

  lemma {:induction false} CountIsNumberOfSpans(fs: seq<Found>, name: string)
    ensures CountName(fs, name) == |At(fs, name)|
  {
    if fs == [] {
      assert At(fs, name) == {};
    } else {
      var init, last := fs[..|fs| - 1], fs[|fs| - 1];
      CountIsNumberOfSpans(init, name);
      CountNameSnoc(init, last, name);
      assert fs == init + [last];
      AtSnoc(init, last, name);
    }
  }

  lemma AtSnoc(fs: seq<Found>, f: Found, name: string)
    ensures |At(fs + [f], name)| == |At(fs, name)| + if f.name == name then 1 else 0
  {
    if f.name == name {
      assert At(fs + [f], name) == At(fs, name) + {|fs|};
    } else {
      assert At(fs + [f], name) == At(fs, name);
    }
  }

  lemma {:induction false} CountNameSnoc(fs: seq<Found>, f: Found, name: string)
    ensures CountName(fs + [f], name) == CountName(fs, name) + if f.name == name then 1 else 0
  {
    if fs == [] {
      assert [f][1..] == [];
    } else {
      assert (fs + [f])[1..] == fs[1..] + [f];
      CountNameSnoc(fs[1..], f, name);
    }
  }

  lemma {:induction false} FreshMentionsAt(chunk: string, fs: seq<Found>, spans: seq<Found>)
    ensures |FreshMentions(chunk, fs, spans)| == |fs|
    ensures forall k | 0 <= k < |fs| ::
              FreshMentions(chunk, fs, spans)[k] == Mentions(chunk, fs[k].name, |At(spans, fs[k].name)|)
  {
    if fs == [] {
    } else {
      FreshMentionsAt(chunk, fs[1..], spans);
      CountIsNumberOfSpans(spans, fs[0].name);
    }
  }

  /** What the model found in a chunk, in terms of the predictions alone. */
  ghost predicate IsExtraction(
    x: Extractor, chunk: string, ps: seq<Prediction>, fs: seq<Found>, pairs: seq<Relation>, mentions: seq<Relation>)
  {
    exists spans ::
      && AreSpans(x, ps, spans) && AreFirsts(x, spans, fs) && AreCombinations(fs, pairs)
      && |mentions| == |fs|
      && forall k | 0 <= k < |fs| :: mentions[k] == Mentions(chunk, fs[k].name, |At(spans, fs[k].name)|)
  }

  function CountName(fs: seq<Found>, name: string): nat {
    if fs == [] then 0 else (if fs[0].name == name then 1 else 0) + CountName(fs[1..], name)
  }

  /** Fresh MENTIONS: one per entity, weighted by the spans that carry its name. */
  function FreshMentions(chunk: string, fs: seq<Found>, spans: seq<Found>): seq<Relation> {
    if fs == [] then []
    else [Mentions(chunk, fs[0].name, CountName(spans, fs[0].name))] + FreshMentions(chunk, fs[1..], spans)
  }

  /** MENTIONS rebuilt from a cached row: one per distinct name, weighted by the entities that carry it. */
  function CachedMentions(chunk: string, fs: seq<Found>, all: seq<Found>): seq<Relation> {
    if fs == [] then []
    else
      var before := CachedMentions(chunk, fs[..|fs| - 1], all);
      var f := fs[|fs| - 1];
      if CountName(fs[..|fs| - 1], f.name) > 0 then before
      else before + [Mentions(chunk, f.name, CountName(all, f.name))]
  }

  /** The relations of chunks run through the model, in order and with their weights. */
  function FreshRelations(x: Extractor, chunks: seq<Chunk>): seq<Relation> {
    if chunks == [] then [] else FreshRelations(x, chunks[..|chunks| - 1]) + ChunkRelations(x, chunks[|chunks| - 1])
  }

  function ChunkRelations(x: Extractor, c: Chunk): seq<Relation> {
    var fs := EntitiesOf(x, c.text);
    Pairs(fs) + FreshMentions(c.id, fs, Spans(x, x.Predict(c.text)))
  }

  /** The relations of chunks served from the cache. */
  function CachedRelations(x: Extractor, chunks: seq<Chunk>): seq<Relation> {
    if chunks == [] then []
    else CachedRelations(x, chunks[..|chunks| - 1]) + HitRelations(x, chunks[|chunks| - 1])
  }

  function HitRelations(x: Extractor, c: Chunk): seq<Relation> {
    var fs := EntitiesOf(x, c.text);
    Pairs(fs) + CachedMentions(c.id, fs, fs)
  }

  function EntryOf(x: Extractor, text: string): Entry {
    Entry(EntitiesOf(x, text), Pairs(EntitiesOf(x, text)))
  }

  /** Every cached row is what its text gives, for that text alone. */
  ghost predicate Coherent(x: Extractor, cache: map<string, Entry>) {
    forall t | t in cache :: cache[t] == EntryOf(x, t)
  }

  // ---- reading results without their order ----

  /** Which entity keys are attributed to which chunks. */
  ghost function Attribution(x: Extractor, es: seq<Entity>): set<(Key, string)> {
    set e, c | e in es && c in e.chunkIds :: (KeyOf(x, e.name, e.kind), c)
  }

  ghost function CoOccurrences(rs: seq<Relation>): multiset<Relation> {
    if rs == [] then multiset{}
    else (if rs[0].CoOccurs? then multiset{rs[0]} else multiset{}) + CoOccurrences(rs[1..])
  }

  ghost function MentionPairs(rs: seq<Relation>): set<(string, string)> {
    set r | r in rs && r.Mentions? :: (r.chunk, r.name)
  }

  ghost function AttributionOf(x: Extractor, chunks: seq<Chunk>): set<(Key, string)> {
    set c, k | c in chunks && k in Keys(x, EntitiesOf(x, c.text)) :: (k, c.id)
  }

  ghost function CoOccurrencesOf(x: Extractor, chunks: seq<Chunk>): multiset<Relation> {
    if chunks == [] then multiset{}
    else CoOccurrences(Pairs(EntitiesOf(x, chunks[0].text))) + CoOccurrencesOf(x, chunks[1..])
  }

  ghost function MentionPairsOf(x: Extractor, chunks: seq<Chunk>): set<(string, string)> {
    set c, f | c in chunks && f in EntitiesOf(x, c.text) :: (c.id, f.name)
  }

  /** A result says of its chunks exactly what extraction finds in each of them. */
  ghost predicate Extracts(x: Extractor, r: Result, chunks: seq<Chunk>) {
    && Attribution(x, r.entities) == AttributionOf(x, chunks)
    && CoOccurrences(r.relations) == CoOccurrencesOf(x, chunks)
    && MentionPairs(r.relations) == MentionPairsOf(x, chunks)
    && OnePerKey(x, r.entities)
  }

  ghost predicate OnePerKey(x: Extractor, es: seq<Entity>) {
    && (forall i, j | 0 <= i < j < |es| :: KeyOf(x, es[i].name, es[i].kind) != KeyOf(x, es[j].name, es[j].kind))
    && (forall e | e in es :: e.chunkIds != [])
  }

  lemma {:induction false} CoOccurrencesConcat(a: seq<Relation>, b: seq<Relation>)
    ensures CoOccurrences(a + b) == CoOccurrences(a) + CoOccurrences(b)
  {
    if a == [] {
      assert a + b == b;
    } else {
      assert (a + b)[1..] == a[1..] + b;
      CoOccurrencesConcat(a[1..], b);
    }
  }

  lemma {:induction false} CoOccurrencesOfConcat(x: Extractor, a: seq<Chunk>, b: seq<Chunk>)
    ensures CoOccurrencesOf(x, a + b) == CoOccurrencesOf(x, a) + CoOccurrencesOf(x, b)
  {
    if a == [] {
      assert a + b == b;
    } else {
      assert (a + b)[1..] == a[1..] + b;
      CoOccurrencesOfConcat(x, a[1..], b);
    }
  }

  lemma MentionPairsConcat(a: seq<Relation>, b: seq<Relation>)
    ensures MentionPairs(a + b) == MentionPairs(a) + MentionPairs(b)
  {
  }

  lemma {:induction false} PairsAreCoOccurs(fs: seq<Found>)
    ensures forall r | r in Pairs(fs) :: r.CoOccurs?
  {
    if fs == [] {
    } else {
      PairsAreCoOccurs(fs[1..]);
      PairsWithAreCoOccurs(fs[0], fs[1..]);
    }
  }

  lemma {:induction false} PairsWithAreCoOccurs(a: Found, rest: seq<Found>)
    ensures forall r | r in PairsWith(a, rest) :: r.CoOccurs?
  {
    if rest == [] {
    } else {
      PairsWithAreCoOccurs(a, rest[1..]);
    }
  }

  lemma {:induction false} NoCoOccurrences(rs: seq<Relation>)
    requires forall r | r in rs :: r.Mentions?
    ensures CoOccurrences(rs) == multiset{}
  {
    if rs == [] {
    } else {
      assert rs[0] in rs;
      NoCoOccurrences(rs[1..]);
    }
  }

  lemma {:induction false} FreshMentionPairs(chunk: string, fs: seq<Found>, spans: seq<Found>)
    ensures forall r | r in FreshMentions(chunk, fs, spans) :: r.Mentions?
    ensures MentionPairs(FreshMentions(chunk, fs, spans)) == set f | f in fs :: (chunk, f.name)
  {
    if fs == [] {
    } else {
      FreshMentionPairs(chunk, fs[1..], spans);
      var head := [Mentions(chunk, fs[0].name, CountName(spans, fs[0].name))];
      MentionPairsConcat(head, FreshMentions(chunk, fs[1..], spans));
      assert MentionPairs(head) == {(chunk, fs[0].name)};
      assert forall f :: f in fs <==> f == fs[0] || f in fs[1..];
    }
  }

  lemma {:induction false} CountedNames(fs: seq<Found>, name: string)
    ensures CountName(fs, name) > 0 <==> exists f :: f in fs && f.name == name
  {
    if fs == [] {
    } else {
      CountedNames(fs[1..], name);
      assert forall f :: f in fs <==> f == fs[0] || f in fs[1..];
    }
  }

  /** Mentions rebuilt from the cache name the same (chunk, name) pairs as fresh ones. */
  lemma {:induction false} CachedMentionPairs(chunk: string, fs: seq<Found>, all: seq<Found>)
    ensures forall r | r in CachedMentions(chunk, fs, all) :: r.Mentions?
    ensures MentionPairs(CachedMentions(chunk, fs, all)) == set f | f in fs :: (chunk, f.name)
    ensures forall i, j | 0 <= i < j < |CachedMentions(chunk, fs, all)| ::
              CachedMentions(chunk, fs, all)[i] != CachedMentions(chunk, fs, all)[j]
    ensures forall r | r in CachedMentions(chunk, fs, all) :: r.chunk == chunk && r.weight == |At(all, r.name)|
  {
    if fs == [] {
    } else {
      var init, f := fs[..|fs| - 1], fs[|fs| - 1];
      CountIsNumberOfSpans(all, f.name);
      assert fs == init + [f];
      CachedMentionPairs(chunk, init, all);
      CountedNames(init, f.name);
      var last := [Mentions(chunk, f.name, CountName(all, f.name))];
      MentionPairsConcat(CachedMentions(chunk, init, all), last);
      assert MentionPairs(last) == {(chunk, f.name)};
      assert forall g :: g in fs <==> g in init || g == f;
      forall r | r in CachedMentions(chunk, init, all) && CountName(init, f.name) == 0
        ensures r.name != f.name
      {
        assert (r.chunk, r.name) in MentionPairs(CachedMentions(chunk, init, all));
      }
      if CountName(init, f.name) > 0 {
        var g :| g in init && g.name == f.name;
        assert (chunk, f.name) in set g | g in init :: (chunk, g.name);
      }
    }
  }

  lemma {:induction false} FirstsKeepKeys(x: Extractor, fs: seq<Found>)
    ensures Keys(x, Firsts(x, fs)) == Keys(x, fs)
  {
    if fs == [] {
    } else {
      var init, f := fs[..|fs| - 1], fs[|fs| - 1];
      assert fs == init + [f];
      FirstsKeepKeys(x, init);
      assert Keys(x, fs) == Keys(x, init) + {FoundKey(x, f)};
      assert Keys(x, Firsts(x, init) + [f]) == Keys(x, Firsts(x, init)) + {FoundKey(x, f)};
    }
  }

  // ---- merging one chunk's entities ----

  method MergeEntities(x: Extractor, entities: seq<Entity>, chunk: string, fs: seq<Found>) returns (merged: seq<Entity>)
    requires OnePerKey(x, entities)
    ensures OnePerKey(x, merged)
    ensures Attribution(x, merged) == Attribution(x, entities) + set k | k in Keys(x, fs) :: (k, chunk)
  {
    merged := entities;
    for i := 0 to |fs|
      invariant OnePerKey(x, merged)
      invariant Attribution(x, merged) == Attribution(x, entities) + set k | k in Keys(x, fs[..i]) :: (k, chunk)
    {
      var f := fs[i];
      assert fs[..i + 1] == fs[..i] + [f];
      assert Keys(x, fs[..i + 1]) == Keys(x, fs[..i]) + {FoundKey(x, f)};
      merged := MergeOne(x, merged, chunk, f);
    }
    assert fs[..|fs|] == fs;
  }

  /** Append the entity, or add the chunk to the one that is already kept under its key. */
  method MergeOne(x: Extractor, entities: seq<Entity>, chunk: string, f: Found) returns (merged: seq<Entity>)
    requires OnePerKey(x, entities)
    ensures OnePerKey(x, merged)
    ensures Attribution(x, merged) == Attribution(x, entities) + {(FoundKey(x, f), chunk)}
  {
    var key := FoundKey(x, f);
    var i := 0;
    while i < |entities| && KeyOf(x, entities[i].name, entities[i].kind) != key
      invariant i <= |entities|
      invariant forall j | 0 <= j < i :: KeyOf(x, entities[j].name, entities[j].kind) != key
    {
      i := i + 1;
    }
    if i == |entities| {
      merged := entities + [Entity(f.name, f.kind, [chunk])];
      AttributionSnoc(x, entities, Entity(f.name, f.kind, [chunk]));
    } else if chunk in entities[i].chunkIds {
      merged := entities;
      assert entities[i] in entities;
    } else {
      merged := entities[i := entities[i].(chunkIds := entities[i].chunkIds + [chunk])];
      AttributionUpdate(x, entities, i, chunk);
    }
  }

  lemma AttributionSnoc(x: Extractor, es: seq<Entity>, e: Entity)
    requires |e.chunkIds| == 1
    ensures Attribution(x, es + [e]) == Attribution(x, es) + {(KeyOf(x, e.name, e.kind), e.chunkIds[0])}
  {
  }

  lemma AttributionUpdate(x: Extractor, es: seq<Entity>, i: nat, chunk: string)
    requires i < |es|
    ensures
      var e := es[i].(chunkIds := es[i].chunkIds + [chunk]);
      Attribution(x, es[i := e]) == Attribution(x, es) + {(KeyOf(x, e.name, e.kind), chunk)}
  {
    var e := es[i].(chunkIds := es[i].chunkIds + [chunk]);
    var es' := es[i := e];
    forall p
      ensures p in Attribution(x, es') <==> p in Attribution(x, es) || p == (KeyOf(x, e.name, e.kind), chunk)
    {
      if p in Attribution(x, es) {
        var d, c :| d in es && c in d.chunkIds && p == (KeyOf(x, d.name, d.kind), c);
        var j :| 0 <= j < |es| && es[j] == d;
        assert es'[j] in es';
      }
      assert es'[i] in es' && es[i] in es;
    }
  }

  lemma AttributionOfSnoc(x: Extractor, done: seq<Chunk>, c: Chunk)
    ensures AttributionOf(x, done + [c]) ==
            AttributionOf(x, done) + set k | k in Keys(x, EntitiesOf(x, c.text)) :: (k, c.id)
  {
    assert forall d :: d in done + [c] <==> d in done || d == c;
  }

  lemma MentionPairsOfSnoc(x: Extractor, done: seq<Chunk>, c: Chunk)
    ensures MentionPairsOf(x, done + [c]) ==
            MentionPairsOf(x, done) + set f | f in EntitiesOf(x, c.text) :: (c.id, f.name)
  {
    assert forall d :: d in done + [c] <==> d in done || d == c;
  }

  lemma CoOccurrencesOfSnoc(x: Extractor, done: seq<Chunk>, c: Chunk)
    ensures CoOccurrencesOf(x, done + [c]) ==
            CoOccurrencesOf(x, done) + CoOccurrences(Pairs(EntitiesOf(x, c.text)))
  {
    CoOccurrencesOfConcat(x, done, [c]);
    assert [c][1..] == [];
  }

  /** Adding a chunk's pairs and mentions to the relations. */
  lemma RelationsGrow(relations: seq<Relation>, fs: seq<Found>, mentions: seq<Relation>)
    requires forall m | m in mentions :: m.Mentions?
    ensures CoOccurrences(relations + Pairs(fs) + mentions) == CoOccurrences(relations) + CoOccurrences(Pairs(fs))
    ensures MentionPairs(relations + Pairs(fs) + mentions) == MentionPairs(relations) + MentionPairs(mentions)
  {
    var pairs := Pairs(fs);
    CoOccurrencesConcat(relations + pairs, mentions);
    CoOccurrencesConcat(relations, pairs);
    NoCoOccurrences(mentions);
    MentionPairsConcat(relations + pairs, mentions);
    MentionPairsConcat(relations, pairs);
    PairsAreCoOccurs(fs);
    assert MentionPairs(pairs) == {};
  }

  /** A chunk's contribution extends a result by exactly that chunk. */
  lemma Extend(x: Extractor, r: Result, done: seq<Chunk>, c: Chunk, entities: seq<Entity>, mentions: seq<Relation>)
    requires Extracts(x, r, done) && OnePerKey(x, entities)
    requires Attribution(x, entities) ==
             Attribution(x, r.entities) + set k | k in Keys(x, EntitiesOf(x, c.text)) :: (k, c.id)
    requires forall m | m in mentions :: m.Mentions?
    requires MentionPairs(mentions) == set f | f in EntitiesOf(x, c.text) :: (c.id, f.name)
    ensures Extracts(x, Result(entities, r.relations + Pairs(EntitiesOf(x, c.text)) + mentions), done + [c])
  {
    RelationsGrow(r.relations, EntitiesOf(x, c.text), mentions);
    AttributionOfSnoc(x, done, c);
    MentionPairsOfSnoc(x, done, c);
    CoOccurrencesOfSnoc(x, done, c);
  }

  // ---- the loops ----

  /** `_extract_per_chunk` for one chunk: unique entities, their pairs and their weighted mentions. */
  method ExtractChunk(x: Extractor, c: Chunk) returns (fs: seq<Found>, pairs: seq<Relation>, mentions: seq<Relation>)
    ensures fs == EntitiesOf(x, c.text) && pairs == Pairs(fs)
    ensures mentions == FreshMentions(c.id, fs, Spans(x, x.Predict(c.text)))
    ensures IsExtraction(x, c.id, x.Predict(c.text), fs, pairs, mentions)
  {
    var predictions := x.Predict(c.text);
    var spans: seq<Found>;
    fs, spans := [], [];
    for i := 0 to |predictions|
      invariant spans == Spans(x, predictions[..i]) && fs == Firsts(x, spans)
    {
      var p := predictions[i];
      SpansStep(x, predictions, i);
      var name := x.strip(p.text);
      if name == "" { continue; }
      var f := Found(name, p.kind);
      FirstsStep(x, spans, f);
      spans := spans + [f];
      if FoundKey(x, f) !in Keys(x, fs) {
        fs := fs + [f];
      }
    }
    assert predictions[..|predictions|] == predictions;
    pairs, mentions := Pairs(fs), FreshMentions(c.id, fs, spans);
    SpansMean(x, predictions);
    FirstsMean(x, spans);
    PairsAreCombinations(fs);
    FreshMentionsAt(c.id, fs, spans);
  }

  lemma SpansStep(x: Extractor, ps: seq<Prediction>, i: nat)
    requires i < |ps|
    ensures
      var name := x.strip(ps[i].text);
      Spans(x, ps[..i + 1]) ==
      if name == "" then Spans(x, ps[..i]) else Spans(x, ps[..i]) + [Found(name, ps[i].kind)]
  {
    assert ps[..i + 1][..i] == ps[..i];
  }

  lemma FirstsStep(x: Extractor, spans: seq<Found>, f: Found)
    ensures Firsts(x, spans + [f]) ==
            if FoundKey(x, f) in Keys(x, Firsts(x, spans)) then Firsts(x, spans) else Firsts(x, spans) + [f]
  {
    assert (spans + [f])[..|spans|] == spans;
  }

  /** A result that extracts some chunks and lists just these relations, weights and order included. */
  ghost predicate Lists(x: Extractor, r: Result, chunks: seq<Chunk>, relations: seq<Relation>) {
    Extracts(x, r, chunks) && r.relations == relations
  }

  /** One chunk through the model, merged into what was extracted before. */
  method AddChunk(
    x: Extractor, r: Result, c: Chunk, ghost done: seq<Chunk>, ghost next: seq<Chunk>,
    ghost listed: seq<Relation>, ghost nextListed: seq<Relation>)
    returns (r': Result, row: Entry)
    requires Lists(x, r, done, listed) && next == done + [c] && nextListed == listed + ChunkRelations(x, c)
    ensures Lists(x, r', next, nextListed)
    ensures row == EntryOf(x, c.text)
  {
    var fs, pairs, mentions := ExtractChunk(x, c);
    FreshMentionPairs(c.id, fs, Spans(x, x.Predict(c.text)));
    var entities := MergeEntities(x, r.entities, c.id, fs);
    Extend(x, r, done, c, entities, mentions);
    r' := Result(entities, r.relations + pairs + mentions);
    row := Entry(fs, pairs);
    assert r.relations + pairs + mentions == r.relations + (pairs + mentions);
  }

  /** One chunk from its row, its mentions rebuilt for the chunk that is asked about. */
  method AddHit(
    x: Extractor, r: Result, row: Entry, c: Chunk, ghost done: seq<Chunk>, ghost next: seq<Chunk>,
    ghost listed: seq<Relation>, ghost nextListed: seq<Relation>)
    returns (r': Result)
    requires Lists(x, r, done, listed) && next == done + [c] && nextListed == listed + HitRelations(x, c)
    requires row == EntryOf(x, c.text)
    ensures Lists(x, r', next, nextListed)
  {
    var entities := MergeEntities(x, r.entities, c.id, row.entities);
    var mentions := CachedMentions(c.id, row.entities, row.entities);
    CachedMentionPairs(c.id, row.entities, row.entities);
    Extend(x, r, done, c, entities, mentions);
    r' := Result(entities, r.relations + row.pairs + mentions);
    assert r.relations + row.pairs + mentions == r.relations + (row.pairs + mentions);
  }

  lemma OneMore(chunks: seq<Chunk>, i: nat)
    requires i < |chunks|
    ensures chunks[..i + 1] == chunks[..i] + [chunks[i]]
  {
  }

  /** `extract`: every chunk through the model. */
  method Extract(x: Extractor, chunks: seq<Chunk>) returns (r: Result)
    ensures Lists(x, r, chunks, FreshRelations(x, chunks))
  {
    r := Result([], []);
    for i := 0 to |chunks|
      invariant Lists(x, r, chunks[..i], FreshRelations(x, chunks[..i]))
    {
      OneMore(chunks, i);
      FreshRelationsStep(x, chunks, i);
      var row;
      r, row := AddChunk(x, r, chunks[i], chunks[..i], chunks[..i + 1],
                         FreshRelations(x, chunks[..i]), FreshRelations(x, chunks[..i + 1]));
    }
    assert chunks[..|chunks|] == chunks;
  }

  lemma FreshRelationsStep(x: Extractor, chunks: seq<Chunk>, i: nat)
    requires i < |chunks|
    ensures FreshRelations(x, chunks[..i + 1]) == FreshRelations(x, chunks[..i]) + ChunkRelations(x, chunks[i])
  {
    assert chunks[..i + 1][..i] == chunks[..i];
  }

  // ---- the cache ----

  /**
   * `lookup_batch` keys a dictionary by text, so of several chunks with one text only the last is looked
   * up, in the place of the first.
   */
  function LookedUp(chunks: seq<Chunk>): (kept: seq<Chunk>)
    ensures forall c | c in kept :: c in chunks
  {
    if chunks == [] then []
    else
      var kept, c := LookedUp(chunks[..|chunks| - 1]), chunks[|chunks| - 1];
      assert forall d | d in kept :: d in chunks[..|chunks| - 1];
      Replace(kept, c)
  }

  /** Assignment into the dictionary: overwrite the slot of the same text or append. */
  function Replace(kept: seq<Chunk>, c: Chunk): (kept': seq<Chunk>)
    ensures forall d | d in kept' :: d in kept || d == c
  {
    if kept == [] then [c]
    else if kept[0].text == c.text then [c] + kept[1..]
    else [kept[0]] + Replace(kept[1..], c)
  }

  function Hits(cache: map<string, Entry>, chunks: seq<Chunk>): seq<Chunk> {
    if chunks == [] then []
    else (if chunks[0].text in cache then [chunks[0]] else []) + Hits(cache, chunks[1..])
  }

  function Misses(cache: map<string, Entry>, chunks: seq<Chunk>): seq<Chunk> {
    if chunks == [] then []
    else (if chunks[0].text in cache then [] else [chunks[0]]) + Misses(cache, chunks[1..])
  }

  lemma {:induction false} HitsAndMisses(cache: map<string, Entry>, chunks: seq<Chunk>)
    ensures forall c :: c in Hits(cache, chunks) <==> c in chunks && c.text in cache
    ensures forall c :: c in Misses(cache, chunks) <==> c in chunks && c.text !in cache
  {
    if chunks == [] {
    } else {
      HitsAndMisses(cache, chunks[1..]);
      assert forall c :: c in chunks <==> c == chunks[0] || c in chunks[1..];
    }
  }

  lemma {:induction false} SplitCoOccurrences(x: Extractor, cache: map<string, Entry>, chunks: seq<Chunk>)
    ensures CoOccurrencesOf(x, Hits(cache, chunks)) + CoOccurrencesOf(x, Misses(cache, chunks))
         == CoOccurrencesOf(x, chunks)
  {
    if chunks == [] {
    } else {
      var c, rest := chunks[0], chunks[1..];
      SplitCoOccurrences(x, cache, rest);
      assert chunks == [c] + rest;
      CoOccurrencesOfCons(x, c, rest);
      if c.text in cache {
        CoOccurrencesOfCons(x, c, Hits(cache, rest));
        assert Misses(cache, chunks) == Misses(cache, rest);
      } else {
        CoOccurrencesOfCons(x, c, Misses(cache, rest));
        assert Hits(cache, chunks) == Hits(cache, rest);
      }
    }
  }

  lemma CoOccurrencesOfCons(x: Extractor, c: Chunk, rest: seq<Chunk>)
    ensures CoOccurrencesOf(x, [c] + rest) == CoOccurrences(Pairs(EntitiesOf(x, c.text))) + CoOccurrencesOf(x, rest)
  {
    assert ([c] + rest)[1..] == rest;
  }

  /** Sharing the work between cache and model changes nothing that is extracted. */
  lemma {:induction false} SplitExtractsAll(x: Extractor, cache: map<string, Entry>, chunks: seq<Chunk>)
    ensures
      var split := Hits(cache, chunks) + Misses(cache, chunks);
      && AttributionOf(x, split) == AttributionOf(x, chunks)
      && CoOccurrencesOf(x, split) == CoOccurrencesOf(x, chunks)
      && MentionPairsOf(x, split) == MentionPairsOf(x, chunks)
  {
    HitsAndMisses(cache, chunks);
    SplitCoOccurrences(x, cache, chunks);
    CoOccurrencesOfConcat(x, Hits(cache, chunks), Misses(cache, chunks));
    SameMembersSameSets(x, Hits(cache, chunks) + Misses(cache, chunks), chunks);
  }

  lemma SameMembersSameSets(x: Extractor, a: seq<Chunk>, b: seq<Chunk>)
    requires forall c :: c in a <==> c in b
    ensures AttributionOf(x, a) == AttributionOf(x, b) && MentionPairsOf(x, a) == MentionPairsOf(x, b)
  {
  }

  function Texts(chunks: seq<Chunk>): set<string> {
    if chunks == [] then {} else Texts(chunks[..|chunks| - 1]) + {chunks[|chunks| - 1].text}
  }

  /** Chunks and relations once another miss has been extracted. */
  lemma OneMoreMiss(x: Extractor, hits: seq<Chunk>, listed: seq<Relation>, misses: seq<Chunk>, i: nat)
    requires i < |misses|
    ensures hits + misses[..i + 1] == hits + misses[..i] + [misses[i]]
    ensures listed + FreshRelations(x, misses[..i + 1]) ==
            listed + FreshRelations(x, misses[..i]) + ChunkRelations(x, misses[i])
  {
    OneMore(misses, i);
    Associative(hits, misses[..i], [misses[i]]);
    FreshRelationsStep(x, misses, i);
    Associative(listed, FreshRelations(x, misses[..i]), ChunkRelations(x, misses[i]));
  }

  /** The cache rows of some chunks. */
  function Rows(x: Extractor, chunks: seq<Chunk>): (rows: seq<Entry>)
    ensures |rows| == |chunks| && forall j | 0 <= j < |rows| :: rows[j] == EntryOf(x, chunks[j].text)
  {
    seq(|chunks|, j requires 0 <= j < |chunks| => EntryOf(x, chunks[j].text))
  }

  lemma OneMoreRow(x: Extractor, chunks: seq<Chunk>, i: nat)
    requires i < |chunks|
    ensures Rows(x, chunks[..i + 1]) == Rows(x, chunks[..i]) + [EntryOf(x, chunks[i].text)]
  {
  }

  /** The model on every miss, and its row for the cache. */
  method ExtractMisses(
    x: Extractor, restored: Result, ghost hits: seq<Chunk>, ghost listed: seq<Relation>, misses: seq<Chunk>)
    returns (r: Result, rows: seq<Entry>)
    requires Lists(x, restored, hits, listed)
    ensures Lists(x, r, hits + misses, listed + FreshRelations(x, misses))
    ensures rows == Rows(x, misses)
  {
    r, rows := restored, [];
    assert hits + misses[..0] == hits && listed + FreshRelations(x, misses[..0]) == listed;
    for i := 0 to |misses|
      invariant Lists(x, r, hits + misses[..i], listed + FreshRelations(x, misses[..i]))
      invariant rows == Rows(x, misses[..i])
    {
      OneMoreMiss(x, hits, listed, misses, i);
      OneMoreRow(x, misses, i);
      var row;
      r, row := AddChunk(x, r, misses[i], hits + misses[..i], hits + misses[..i + 1],
                         listed + FreshRelations(x, misses[..i]), listed + FreshRelations(x, misses[..i + 1]));
      rows := rows + [row];
    }
    assert misses[..|misses|] == misses;
  }

  lemma OneMoreHit(x: Extractor, hits: seq<Chunk>, i: nat)
    requires i < |hits|
    ensures hits[..i + 1] == hits[..i] + [hits[i]]
    ensures CachedRelations(x, hits[..i + 1]) == CachedRelations(x, hits[..i]) + HitRelations(x, hits[i])
  {
    assert hits[..i + 1][..i] == hits[..i];
  }

  class Extraction {
    const extractor: Extractor
    var cache: map<string, Entry>

    constructor (extractor: Extractor)
      ensures this.extractor == extractor && cache == map[]
    {
      this.extractor := extractor;
      cache := map[];
    }

    /** The hits, from their rows. */
    method RestoreHits(hits: seq<Chunk>) returns (r: Result)
      requires Coherent(extractor, cache) && forall c | c in hits :: c.text in cache
      ensures Lists(extractor, r, hits, CachedRelations(extractor, hits))
    {
      var x := extractor;
      r := Result([], []);
      for i := 0 to |hits|
        invariant Lists(x, r, hits[..i], CachedRelations(x, hits[..i]))
      {
        OneMoreHit(x, hits, i);
        r := AddHit(x, r, cache[hits[i].text], hits[i], hits[..i], hits[..i + 1],
                    CachedRelations(x, hits[..i]), CachedRelations(x, hits[..i + 1]));
      }
      assert hits[..|hits|] == hits;
    }

    /** `store_batch`: a row for each chunk. */
    method StoreBatch(chunks: seq<Chunk>, rows: seq<Entry>)
      requires Coherent(extractor, cache) && rows == Rows(extractor, chunks)
      modifies this
      ensures Coherent(extractor, cache)
      ensures cache.Keys == old(cache).Keys + Texts(chunks)
    {
      for i := 0 to |chunks|
        invariant Coherent(extractor, cache)
        invariant cache.Keys == old(cache).Keys + Texts(chunks[..i])
      {
        assert chunks[..i + 1][..i] == chunks[..i];
        cache := cache[chunks[i].text := rows[i]];
      }
      assert chunks[..|chunks|] == chunks;
    }

    /**
     * `extract_with_cache`: hits from their rows with rebuilt mentions, misses through the model, and a
     * row stored for each miss. The result is that of the chunks looked up, and the cache stays coherent.
     */
    method ExtractWithCache(chunks: seq<Chunk>) returns (r: Result)
      requires Coherent(extractor, cache)
      modifies this
      ensures
        var hits, misses := Hits(old(cache), LookedUp(chunks)), Misses(old(cache), LookedUp(chunks));
        Lists(extractor, r, hits + misses, CachedRelations(extractor, hits) + FreshRelations(extractor, misses))
      ensures Coherent(extractor, cache)
      ensures cache.Keys == old(cache).Keys + Texts(Misses(old(cache), LookedUp(chunks)))
    {
      var kept := LookedUp(chunks);
      var hits, misses := Hits(cache, kept), Misses(cache, kept);
      HitsAndMisses(cache, kept);
      r := RestoreHits(hits);
      var rows;
      r, rows := ExtractMisses(extractor, r, hits, CachedRelations(extractor, hits), misses);
      StoreBatch(misses, rows);
    }
  }
}
