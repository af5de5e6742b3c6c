/** Layered embedding caches: whichever layer serves a chunk, its vector is the encoder's. */
module Embedding {

  type Vector = seq<real>

  datatype Chunk = Chunk(id: string, text: string)

  /**
   * What embedding depends on: the encoder (a fixed function of the text, with components that survive
   * float32 storage), the injective text hash, and the fusion of a text vector with a meta vector.
   */
  datatype Encoder = Encoder(encode: string -> Vector, hash: string -> string, fuse: (Vector, Vector) -> Vector)

  ghost predicate InjectiveHash(e: Encoder) {
    forall a, b | e.hash(a) == e.hash(b) :: a == b
  }

  /** The text components stored for these chunks are the encoder's vectors. */
  ghost predicate ComponentsFit(e: Encoder, components: map<string, Vector>, chunks: seq<Chunk>) {
    forall c | c in chunks && c.id in components :: components[c.id] == e.encode(c.text)
  }

  /** Every cached hash holds the vector of the text it is the hash of. */
  ghost predicate CacheFits(e: Encoder, cache: map<string, Vector>) {
    forall t | e.hash(t) in cache :: cache[e.hash(t)] == e.encode(t)
  }

  ghost predicate DistinctIds(chunks: seq<Chunk>) {
    forall c, d | c in chunks && d in chunks && c.id == d.id :: c == d
  }

  /** The hashes of the chunks no component serves; all of them end up in the global cache. */
  function Needed(e: Encoder, components: map<string, Vector>, chunks: seq<Chunk>): set<string> {
    set c | c in chunks && c.id !in components :: e.hash(c.text)
  }

  /** The global cache after every missing text has been encoded and inserted. */
  ghost predicate Filled(e: Encoder, components: map<string, Vector>, chunks: seq<Chunk>,
                         before: map<string, Vector>, after: map<string, Vector>) {
    && after.Keys == before.Keys + Needed(e, components, chunks)
    && (forall h | h in before :: after[h] == before[h])
    && CacheFits(e, after)
  }

  function Ids(chunks: seq<Chunk>): set<string> {
    set c | c in chunks :: c.id
  }

  /** The vector stores of the index. */
  datatype Stores = Stores(
    components: map<string, Vector>, metas: map<string, Vector>, cache: map<string, Vector>,
    vectors: map<string, Vector>, hashes: map<string, string>)

  ghost predicate PutsExactly<T>(before: map<string, T>, after: map<string, T>, ids: set<string>) {
    after.Keys == before.Keys + ids && forall k | k in before && k !in ids :: after[k] == before[k]
  }

  /**
   * What embedding a file leaves, said without naming a branch: the encoder's text vector, the fused
   * vector and the text hash of every chunk, the file's meta vector, and nothing else changed.
   */
  ghost predicate Embedded(e: Encoder, path: string, metaText: string, chunks: seq<Chunk>, s: Stores, s': Stores) {
    && PutsExactly(s.components, s'.components, Ids(chunks))
    && PutsExactly(s.vectors, s'.vectors, Ids(chunks))
    && PutsExactly(s.hashes, s'.hashes, Ids(chunks))
    && (forall c | c in chunks ::
          && s'.components[c.id] == e.encode(c.text)
          && s'.vectors[c.id] == e.fuse(e.encode(c.text), e.encode(metaText))
          && s'.hashes[c.id] == e.hash(c.text))
    && s'.metas == s.metas[path := e.encode(metaText)]
    && Filled(e, s.components, chunks, s.cache, s'.cache)
  }

  /** The filled cache is determined: filling twice from one cache gives one result. */
  lemma FilledIsUnique(e: Encoder, components: map<string, Vector>, chunks: seq<Chunk>,
                       before: map<string, Vector>, a: map<string, Vector>, b: map<string, Vector>)
    requires Filled(e, components, chunks, before, a) && Filled(e, components, chunks, before, b)
    ensures a == b
  {
    forall h | h in a
      ensures a[h] == b[h]
    {
      if h !in before {
        var c :| c in chunks && c.id !in components && e.hash(c.text) == h;
      }
    }
  }

  lemma PutsAgree<T>(before: map<string, T>, a: map<string, T>, b: map<string, T>, ids: set<string>)
    requires PutsExactly(before, a, ids) && PutsExactly(before, b, ids)
    requires forall k | k in ids :: a[k] == b[k]
    ensures a == b
  {
  }

  /** The fast path refines the full path: any two branches that embed a file leave the same stores. */
  lemma BranchesAgree(e: Encoder, path: string, metaText: string, chunks: seq<Chunk>, s: Stores, a: Stores, b: Stores)
    requires Embedded(e, path, metaText, chunks, s, a) && Embedded(e, path, metaText, chunks, s, b)
    ensures a == b
  {
    FilledIsUnique(e, s.components, chunks, s.cache, a.cache, b.cache);
    forall k | k in Ids(chunks)
      ensures a.components[k] == b.components[k] && a.vectors[k] == b.vectors[k] && a.hashes[k] == b.hashes[k]
    {
      var c :| c in chunks && c.id == k;
    }
    PutsAgree(s.components, a.components, b.components, Ids(chunks));
    PutsAgree(s.vectors, a.vectors, b.vectors, Ids(chunks));
    PutsAgree(s.hashes, a.hashes, b.hashes, Ids(chunks));
  }

  // ---- putting one value per chunk ----

  ghost function PutFirst<T>(m: map<string, T>, chunks: seq<Chunk>, f: Chunk -> T, n: nat): map<string, T>
    requires n <= |chunks|
  {
    if n == 0 then m else PutFirst(m, chunks, f, n - 1)[chunks[n - 1].id := f(chunks[n - 1])]
  }

  lemma {:induction false} PutFirstAt<T>(m: map<string, T>, chunks: seq<Chunk>, f: Chunk -> T, n: nat, c: Chunk)
    requires n <= |chunks| && DistinctIds(chunks) && c in chunks
    ensures c in chunks[..n] || (c.id in m && m[c.id] == f(c)) ==>
              c.id in PutFirst(m, chunks, f, n) && PutFirst(m, chunks, f, n)[c.id] == f(c)
  {
    if n == 0 {
    } else {
      PutFirstAt(m, chunks, f, n - 1, c);
      assert chunks[..n] == chunks[..n - 1] + [chunks[n - 1]];
      assert chunks[n - 1] in chunks;
    }
  }

  lemma {:induction false} PutFirstKeys<T>(m: map<string, T>, chunks: seq<Chunk>, f: Chunk -> T, n: nat)
    requires n <= |chunks|
    ensures PutsExactly(m, PutFirst(m, chunks, f, n), Ids(chunks[..n]))
  {
    if n == 0 {
    } else {
      PutFirstKeys(m, chunks, f, n - 1);
      assert chunks[..n] == chunks[..n - 1] + [chunks[n - 1]];
      assert Ids(chunks[..n]) == Ids(chunks[..n - 1]) + {chunks[n - 1].id};
    }
  }

  /** One value per chunk: exactly the chunks' ids are written, each with its own value. */
  lemma PutAllMeaning<T>(m: map<string, T>, chunks: seq<Chunk>, f: Chunk -> T)
    requires DistinctIds(chunks)
    ensures PutsExactly(m, PutFirst(m, chunks, f, |chunks|), Ids(chunks))
    ensures forall c | c in chunks ::
              c.id in PutFirst(m, chunks, f, |chunks|) && PutFirst(m, chunks, f, |chunks|)[c.id] == f(c)
  {
    assert chunks[..|chunks|] == chunks;
    PutFirstKeys(m, chunks, f, |chunks|);
    forall c | c in chunks
      ensures c.id in PutFirst(m, chunks, f, |chunks|) && PutFirst(m, chunks, f, |chunks|)[c.id] == f(c)
    {
      PutFirstAt(m, chunks, f, |chunks|, c);
    }
  }

  // ---- the embedding layers ----

  /** A component or the global cache has the chunk's vector. */
  predicate Served(e: Encoder, components: map<string, Vector>, cache: map<string, Vector>, c: Chunk) {
    c.id in components || e.hash(c.text) in cache
  }

  /** Component layer, then global cache, then a placeholder to be encoded. */
  method LookUp(e: Encoder, components: map<string, Vector>, cache: map<string, Vector>, chunks: seq<Chunk>)
    returns (embeddings: seq<Vector>, toEncode: seq<nat>)
    requires ComponentsFit(e, components, chunks) && CacheFits(e, cache)
    ensures |embeddings| == |chunks|
    ensures forall k | 0 <= k < |chunks| && Served(e, components, cache, chunks[k]) ::
              embeddings[k] == e.encode(chunks[k].text)
    ensures forall k :: k in toEncode <==> 0 <= k < |chunks| && !Served(e, components, cache, chunks[k])
    ensures forall j | 0 <= j < |toEncode| :: toEncode[j] < |chunks|
  {
    embeddings, toEncode := [], [];
    for i := 0 to |chunks|
      invariant |embeddings| == i
      invariant forall k | 0 <= k < i && Served(e, components, cache, chunks[k]) ::
                  embeddings[k] == e.encode(chunks[k].text)
      invariant forall k :: k in toEncode <==> 0 <= k < i && !Served(e, components, cache, chunks[k])
      invariant forall j | 0 <= j < |toEncode| :: toEncode[j] < i
    {
      var c := chunks[i];
      assert c in chunks;
      if c.id in components {
        embeddings := embeddings + [components[c.id]];
      } else if e.hash(c.text) in cache {
        embeddings := embeddings + [cache[e.hash(c.text)]];
      } else {
        embeddings := embeddings + [[]];
        toEncode := toEncode + [i];
      }
    }
  }

  /** `encode_batch`: vectors aligned with the chosen chunks. */
  method EncodeBatch(e: Encoder, chunks: seq<Chunk>, chosen: seq<nat>) returns (vectors: seq<Vector>)
    requires forall j | 0 <= j < |chosen| :: chosen[j] < |chunks|
    ensures |vectors| == |chosen|
    ensures forall j | 0 <= j < |chosen| :: vectors[j] == e.encode(chunks[chosen[j]].text)
  {
    vectors := seq(|chosen|, j requires 0 <= j < |chosen| => e.encode(chunks[chosen[j]].text));
  }

  /** Fill the placeholders with the computed vectors. */
  method FillPlaceholders(e: Encoder, chunks: seq<Chunk>, given: seq<Vector>, toEncode: seq<nat>, computed: seq<Vector>)
    returns (embeddings: seq<Vector>)
    requires |given| == |chunks| && |computed| == |toEncode|
    requires forall j | 0 <= j < |toEncode| :: toEncode[j] < |chunks|
    requires forall j | 0 <= j < |toEncode| :: computed[j] == e.encode(chunks[toEncode[j]].text)
    requires forall k | 0 <= k < |chunks| && k !in toEncode :: given[k] == e.encode(chunks[k].text)
    ensures |embeddings| == |chunks|
    ensures forall k | 0 <= k < |chunks| :: embeddings[k] == e.encode(chunks[k].text)
  {
    embeddings := given;
    for j := 0 to |toEncode|
      invariant |embeddings| == |chunks|
      invariant forall k | 0 <= k < |chunks| && k !in toEncode[j..] :: embeddings[k] == e.encode(chunks[k].text)
    {
      assert toEncode[j..] == [toEncode[j]] + toEncode[j + 1..];
      embeddings := embeddings[toEncode[j] := computed[j]];
    }
  }

  function Missing(components: map<string, Vector>, chunks: seq<Chunk>): (rest: seq<Chunk>)
    ensures forall c :: c in rest <==> c in chunks && c.id !in components
  {
    if chunks == [] then []
    else (if chunks[0].id !in components then [chunks[0]] else []) + Missing(components, chunks[1..])
  }

  /** The hashes of the texts at some positions. */
  function HashesOf(e: Encoder, chunks: seq<Chunk>, at: seq<nat>): set<string> {
    set k | k in at && k < |chunks| :: e.hash(chunks[k].text)
  }

  lemma OneMoreHash(e: Encoder, chunks: seq<Chunk>, at: seq<nat>, k: nat)
    requires k < |chunks|
    ensures HashesOf(e, chunks, at + [k]) == HashesOf(e, chunks, at) + {e.hash(chunks[k].text)}
  {
    assert forall j :: j in at + [k] <==> j in at || j == k;
  }

  lemma MissingMeaning(e: Encoder, components: map<string, Vector>, chunks: seq<Chunk>)
    requires DistinctIds(chunks)
    ensures DistinctIds(Missing(components, chunks))
    ensures ComponentsFit(e, components, Missing(components, chunks))
    ensures Needed(e, components, Missing(components, chunks)) == Needed(e, components, chunks)
  {
  }

  /** Stored components plus the vectors of the missing chunks are vectors for all chunks. */
  lemma StoredAndMissing(e: Encoder, components: map<string, Vector>, chunks: seq<Chunk>, stored: map<string, Vector>)
    requires DistinctIds(chunks) && ComponentsFit(e, components, chunks)
    requires stored == map k | k in Ids(chunks) && k in components :: components[k]
    ensures
      var rest, f := Missing(components, chunks), (c: Chunk) => e.encode(c.text);
      var found := PutFirst(stored, rest, f, |rest|);
      forall c | c in chunks :: c.id in found && found[c.id] == e.encode(c.text)
  {
    var rest, f := Missing(components, chunks), (c: Chunk) => e.encode(c.text);
    MissingMeaning(e, components, chunks);
    PutAllMeaning(stored, rest, f);
    var found := PutFirst(stored, rest, f, |rest|);
    forall c | c in chunks
      ensures c.id in found && found[c.id] == e.encode(c.text)
    {
      if c.id in components {
        assert c.id in Ids(chunks) && c.id in stored;
        assert c.id !in Ids(rest);
      }
    }
  }

  class EmbeddingStore {
    const encoder: Encoder
    /** Text components by chunk id, meta components by canonical path. */
    var components: map<string, Vector>
    var metas: map<string, Vector>
    /** The global cache by text hash. */
    var cache: map<string, Vector>
    /** Fused vectors and text hashes by chunk id. */
    var vectors: map<string, Vector>
    var hashes: map<string, string>

    constructor (encoder: Encoder)
      ensures this.encoder == encoder && View() == Stores(map[], map[], map[], map[], map[])
    {
      this.encoder := encoder;
      components, metas, cache, vectors, hashes := map[], map[], map[], map[], map[];
    }

    ghost function View(): Stores
      reads this
    {
      Stores(components, metas, cache, vectors, hashes)
    }

    ghost predicate Coherent(chunks: seq<Chunk>)
      reads this
    {
      InjectiveHash(encoder) && ComponentsFit(encoder, components, chunks) && CacheFits(encoder, cache)
    }

    /** `embedding_cache.store` for the newly encoded chunks: insert or ignore. */
    method CacheNew(chunks: seq<Chunk>, toEncode: seq<nat>, computed: seq<Vector>)
      requires InjectiveHash(encoder) && CacheFits(encoder, cache) && |computed| == |toEncode|
      requires forall j | 0 <= j < |toEncode| :: toEncode[j] < |chunks|
      requires forall j | 0 <= j < |toEncode| :: computed[j] == encoder.encode(chunks[toEncode[j]].text)
      modifies this`cache
      ensures cache.Keys == old(cache).Keys + HashesOf(encoder, chunks, toEncode)
      ensures forall h | h in old(cache) :: cache[h] == old(cache)[h]
      ensures CacheFits(encoder, cache)
    {
      for j := 0 to |toEncode|
        invariant cache.Keys == old(cache).Keys + HashesOf(encoder, chunks, toEncode[..j])
        invariant forall h | h in old(cache) :: cache[h] == old(cache)[h]
        invariant CacheFits(encoder, cache)
      {
        assert toEncode[..j + 1] == toEncode[..j] + [toEncode[j]];
        OneMoreHash(encoder, chunks, toEncode[..j], toEncode[j]);
        var h := encoder.hash(chunks[toEncode[j]].text);
        if h !in cache {
          cache := cache[h := computed[j]];
        }
      }
      assert toEncode[..|toEncode|] == toEncode;
    }

    /**
     * `_embed_chunks`. The result is aligned with the chunks and holds the encoder's vector for each of
     * them, whichever layer served it, and the caches stay coherent.
     */
    method EmbedChunks(chunks: seq<Chunk>) returns (embeddings: seq<Vector>)
      requires Coherent(chunks)
      modifies this`cache
      ensures |embeddings| == |chunks|
      ensures forall i | 0 <= i < |chunks| :: embeddings[i] == encoder.encode(chunks[i].text)
      ensures Filled(encoder, components, chunks, old(cache), cache)
    {
      var found, toEncode := LookUp(encoder, components, cache, chunks);
      var computed := EncodeBatch(encoder, chunks, toEncode);
      embeddings := FillPlaceholders(encoder, chunks, found, toEncode, computed);
      CacheNew(chunks, toEncode, computed);
      EncodedAreNeeded(encoder, components, old(cache), chunks, toEncode);
    }

    /** The text vectors of the metadata-only path: stored components, and a full embed of the missing. */
    method TextVectors(chunks: seq<Chunk>) returns (found: map<string, Vector>, missing: set<string>)
      requires Coherent(chunks) && DistinctIds(chunks)
      modifies this`cache
      ensures missing == Ids(Missing(components, chunks))
      ensures forall c | c in chunks :: c.id in found && found[c.id] == encoder.encode(c.text)
      ensures Filled(encoder, components, chunks, old(cache), cache)
    {
      var rest := Missing(components, chunks);
      missing := Ids(rest);
      ghost var f := (c: Chunk) => encoder.encode(c.text);
      var stored := map k | k in Ids(chunks) && k in components :: components[k];
      found := stored;
      MissingMeaning(encoder, components, chunks);
      var vs := EmbedChunks(rest);
      for i := 0 to |rest|
        invariant found == PutFirst(stored, rest, f, i)
        invariant Filled(encoder, components, chunks, old(cache), cache)
      {
        found := found[rest[i].id := vs[i]];
      }
      StoredAndMissing(encoder, components, chunks, stored);
    }

    /** The write phase: some text components, the meta component, fused vectors and hashes. */
    method StoreAll(path: string, eMeta: Vector, chunks: seq<Chunk>, toStore: set<string>, eTexts: map<string, Vector>)
      requires DistinctIds(chunks)
      requires forall c | c in chunks :: c.id in eTexts && eTexts[c.id] == encoder.encode(c.text)
      requires forall c | c in chunks && c.id !in toStore ::
                 c.id in components && components[c.id] == encoder.encode(c.text)
      modifies this
      ensures components == PutFirst(old(components), chunks, (c: Chunk) => encoder.encode(c.text), |chunks|)
      ensures vectors == PutFirst(old(vectors), chunks,
                                  (c: Chunk) => encoder.fuse(encoder.encode(c.text), eMeta), |chunks|)
      ensures hashes == PutFirst(old(hashes), chunks, (c: Chunk) => encoder.hash(c.text), |chunks|)
      ensures metas == old(metas)[path := eMeta] && cache == old(cache)
    {
      ghost var f, g, h :=
        (c: Chunk) => encoder.encode(c.text),
        (c: Chunk) => encoder.fuse(encoder.encode(c.text), eMeta),
        (c: Chunk) => encoder.hash(c.text);
      for i := 0 to |chunks|
        invariant metas == old(metas) && cache == old(cache)
        invariant components == PutFirst(old(components), chunks, f, i)
        invariant vectors == PutFirst(old(vectors), chunks, g, i)
        invariant hashes == PutFirst(old(hashes), chunks, h, i)
      {
        var c := chunks[i];
        assert c in chunks;
        if c.id in toStore {
          components := components[c.id := eTexts[c.id]];
        } else {
          PutFirstAt(old(components), chunks, f, i, c);
          assert components == components[c.id := f(c)];
        }
        vectors := vectors[c.id := encoder.fuse(eTexts[c.id], eMeta)];
        hashes := hashes[c.id := encoder.hash(c.text)];
      }
      metas := metas[path := eMeta];
    }

    /**
     * `_index_file_embed`: the full path re-embeds every chunk, the metadata-only path reads stored text
     * vectors and embeds only the missing ones. Either way the stores end as `Embedded` says.
     */
    method IndexFileEmbed(path: string, metaText: string, chunks: seq<Chunk>, bodyChanged: bool, metaChanged: bool)
      requires Coherent(chunks) && DistinctIds(chunks)
      modifies this
      ensures (!bodyChanged && !metaChanged) || chunks == [] ==> View() == old(View())
      ensures (bodyChanged || metaChanged) && chunks != [] ==>
                Embedded(encoder, path, metaText, chunks, old(View()), View())
    {
      if (!bodyChanged && !metaChanged) || chunks == [] { return; }
      var found: map<string, Vector>, toStore;
      ghost var f, g, h :=
        (c: Chunk) => encoder.encode(c.text),
        (c: Chunk) => encoder.fuse(encoder.encode(c.text), encoder.encode(metaText)),
        (c: Chunk) => encoder.hash(c.text);
      if bodyChanged {
        var eTexts := EmbedChunks(chunks);
        found, toStore := ByChunk(encoder, chunks, eTexts), Ids(chunks);
      } else {
        found, toStore := TextVectors(chunks);
      }
      StoreAll(path, encoder.encode(metaText), chunks, toStore, found);
      PutAllMeaning(old(components), chunks, f);
      PutAllMeaning(old(vectors), chunks, g);
      PutAllMeaning(old(hashes), chunks, h);
    }
  }

  /** Chunk ids to their aligned vectors. */
  function ByChunk(e: Encoder, chunks: seq<Chunk>, vs: seq<Vector>): (m: map<string, Vector>)
    requires |vs| == |chunks| && forall i | 0 <= i < |chunks| :: vs[i] == e.encode(chunks[i].text)
    requires DistinctIds(chunks)
    ensures forall c | c in chunks :: c.id in m && m[c.id] == e.encode(c.text)
  {
    if chunks == [] then map[]
    else
      var n := |chunks| - 1;
      assert forall c | c in chunks[..n] :: c in chunks;
      assert forall c | c in chunks :: c in chunks[..n] || c == chunks[n];
      ByChunk(e, chunks[..n], vs[..n])[chunks[n].id := vs[n]]
  }

  lemma EncodedAreNeeded(e: Encoder, components: map<string, Vector>, cache: map<string, Vector>,
                         chunks: seq<Chunk>, toEncode: seq<nat>)
    requires forall k :: k in toEncode <==> 0 <= k < |chunks| && !Served(e, components, cache, chunks[k])
    ensures cache.Keys + HashesOf(e, chunks, toEncode) == cache.Keys + Needed(e, components, chunks)
  {
    forall h | h in Needed(e, components, chunks) && h !in cache
      ensures h in HashesOf(e, chunks, toEncode)
    {
      var c :| c in chunks && c.id !in components && e.hash(c.text) == h;
      var k :| 0 <= k < |chunks| && chunks[k] == c;
      assert k in toEncode;
    }
  }
}
