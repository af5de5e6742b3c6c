/** Token-budget windows over a list of sentences, with overlap between neighbours. */
module OverlapWindows {
  import opened Joining
  import opened Numbers

  /** String operations of the chunker; `cost` estimates tokens. */
  datatype Texts = Texts(
    strip: string -> string, cost: string -> nat, preSplit: string -> seq<string>, sentences: string -> seq<string>)

  datatype Budget = Budget(maxTokens: nat, overlapTokens: nat)

  /** Sentences start..end. */
  datatype Window = Window(start: nat, end: nat)

  // ---- what the windows are ----

  /** Token cost of the sentences i..j. */
  function Span(t: Texts, ss: seq<string>, i: nat, j: nat): nat
    requires i <= j <= |ss|
    decreases j
  {
    if i == j then 0 else Span(t, ss, i, j - 1) + t.cost(ss[j - 1])
  }

  lemma {:induction false} SpanGrows(t: Texts, ss: seq<string>, i: nat, j: nat, k: nat)
    requires i <= j <= k <= |ss|
    ensures Span(t, ss, i, k) == Span(t, ss, i, j) + Span(t, ss, j, k)
    decreases k
  {
    if j < k {
      SpanGrows(t, ss, i, j, k - 1);
    }
  }

  lemma {:induction false} SpanOfSlice(t: Texts, ss: seq<string>, from: nat, to: nat, i: nat, j: nat)
    requires from <= to <= |ss| && i <= j <= to - from
    ensures Span(t, ss[from..to], i, j) == Span(t, ss, from + i, from + j)
    decreases j
  {
    if i < j {
      SpanOfSlice(t, ss, from, to, i, j - 1);
    }
  }

  /** The tail of start..end that starts at s is its longest affordable one, and never empty. */
  ghost predicate OverlapAt(t: Texts, ss: seq<string>, overlap: nat, start: nat, end: nat, s: nat)
    requires start <= s < end <= |ss|
  {
    && (Span(t, ss, s, end) <= overlap || s == end - 1)
    && (s == start || Span(t, ss, s - 1, end) > overlap)
  }

  /** Sentence `forced` was taken whatever it costs; each later one still fitted when it was added. */
  ghost predicate Fits(t: Texts, b: Budget, ss: seq<string>, w: Window, forced: nat) {
    && w.start <= forced < w.end <= |ss|
    && forall e | forced + 1 < e <= w.end :: Span(t, ss, w.start, e) <= b.maxTokens
  }

  /** v was closed because the next sentence broke the budget; w starts inside it and ends later. */
  ghost predicate Follows(t: Texts, b: Budget, ss: seq<string>, v: Window, w: Window) {
    && v.start <= w.start < v.end < w.end
    && Fits(t, b, ss, w, v.end)
    && Span(t, ss, v.start, v.end + 1) > b.maxTokens
    && OverlapAt(t, ss, b.overlapTokens, v.start, v.end, w.start)
  }

  ghost predicate Chain(t: Texts, b: Budget, ss: seq<string>, ws: seq<Window>) {
    if ws == [] then true
    else if |ws| == 1 then ws[0].start == 0 && Fits(t, b, ss, ws[0], 0)
    else Chain(t, b, ss, ws[..|ws| - 1]) && Follows(t, b, ss, ws[|ws| - 2], ws[|ws| - 1])
  }

  /**
   * The windows of a sentence list: they start at its beginning, each follows the one before, and the
   * last one reaches the end.
   */
  ghost predicate Windows(t: Texts, b: Budget, ss: seq<string>, ws: seq<Window>) {
    && Chain(t, b, ss, ws)
    && if ss == [] then ws == [] else ws != [] && ws[|ws| - 1].end == |ss|
  }

  /** The text of a window. */
  function Piece(ss: seq<string>, w: Window): string {
    if w.start <= w.end <= |ss| then JoinedBy(" ", ss[w.start..w.end]) else ""
  }

  function Pieces(ss: seq<string>, ws: seq<Window>): seq<string> {
    if ws == [] then [] else Pieces(ss, ws[..|ws| - 1]) + [Piece(ss, ws[|ws| - 1])]
  }

  // ---- the loop ----

  /** The overlap kept from a closed window, built backwards from its tail. */
  method Overlap(t: Texts, b: Budget, current: seq<string>) returns (kept: seq<string>, tokens: nat)
    requires current != []
    ensures 0 < |kept| <= |current| && kept == current[|current| - |kept|..]
    ensures tokens == Span(t, current, |current| - |kept|, |current|)
    ensures OverlapAt(t, current, b.overlapTokens, 0, |current|, |current| - |kept|)
  {
    kept, tokens := [], 0;
    var i := |current|;
    while i > 0
      invariant 0 <= i <= |current| && kept == current[i..]
      invariant tokens == Span(t, current, i, |current|)
      invariant i < |current| - 1 ==> tokens <= b.overlapTokens
    {
      var s := current[i - 1];
      SpanGrows(t, current, i - 1, i, |current|);
      if tokens + t.cost(s) > b.overlapTokens && kept != [] {
        return;
      }
      kept, tokens := [s] + kept, tokens + t.cost(s);
      i := i - 1;
    }
  }

  /** The loop's state before sentence i: closed windows, and an open one that reaches up to i. */
  ghost predicate Filling(t: Texts, b: Budget, ss: seq<string>, ws: seq<Window>, start: nat, i: nat) {
    start < i <= |ss| && Chain(t, b, ss, ws + [Window(start, i)])
  }

  lemma FitsOneMore(t: Texts, b: Budget, ss: seq<string>, start: nat, i: nat, forced: nat)
    requires Fits(t, b, ss, Window(start, i), forced) && i < |ss| && Span(t, ss, start, i + 1) <= b.maxTokens
    ensures Fits(t, b, ss, Window(start, i + 1), forced)
  {
    assert Window(start, i).end == i && Window(start, i).start == start;
    forall e | forced + 1 < e <= i + 1
      ensures Span(t, ss, start, e) <= b.maxTokens
    {
      if e <= i {
        assert Span(t, ss, Window(start, i).start, e) <= b.maxTokens;
      }
    }
  }

  /** A sentence that fits extends the open window. */
  lemma Extend(t: Texts, b: Budget, ss: seq<string>, ws: seq<Window>, start: nat, i: nat)
    requires Filling(t, b, ss, ws, start, i) && i < |ss|
    requires Span(t, ss, start, i + 1) <= b.maxTokens
    ensures Filling(t, b, ss, ws, start, i + 1)
  {
    var was, now := ws + [Window(start, i)], ws + [Window(start, i + 1)];
    assert was[..|ws|] == ws && now[..|ws|] == ws;
    FitsOneMore(t, b, ss, start, i, if ws == [] then 0 else ws[|ws| - 1].end);
  }

  /** A sentence that does not fit closes the window and starts the next one behind its overlap. */
  lemma Reopen(t: Texts, b: Budget, ss: seq<string>, ws: seq<Window>, start: nat, i: nat, s: nat)
    requires Filling(t, b, ss, ws, start, i) && i < |ss| && start <= s < i
    requires Span(t, ss, start, i + 1) > b.maxTokens
    requires OverlapAt(t, ss, b.overlapTokens, start, i, s)
    ensures Filling(t, b, ss, ws + [Window(start, i)], s, i + 1)
  {
    var was := ws + [Window(start, i)];
    assert (was + [Window(s, i + 1)])[..|was|] == was;
  }

  /** An overlap of the open window alone is an overlap in the whole list. */
  lemma OverlapInList(t: Texts, ss: seq<string>, overlap: nat, start: nat, i: nat, s: nat)
    requires start <= s < i <= |ss|
    requires OverlapAt(t, ss[start..i], overlap, 0, i - start, s - start)
    ensures OverlapAt(t, ss, overlap, start, i, s)
  {
    SpanOfSlice(t, ss, start, i, s - start, i - start);
    if start < s {
      SpanOfSlice(t, ss, start, i, s - start - 1, i - start);
    }
  }

  lemma PiecesSnoc(ss: seq<string>, ws: seq<Window>, start: nat, end: nat)
    requires start < end <= |ss|
    ensures Pieces(ss, ws + [Window(start, end)]) == Pieces(ss, ws) + [JoinedBy(" ", ss[start..end])]
  {
    assert (ws + [Window(start, end)])[..|ws|] == ws;
  }

  /** Before sentence i: the open sentences are start..i, behind the closed windows. */
  ghost predicate Grouping(t: Texts, b: Budget, ss: seq<string>, i: nat, ws: seq<Window>, start: nat) {
    start <= i <= |ss| && if i == 0 then ws == [] else Filling(t, b, ss, ws, start, i)
  }

  lemma Added(t: Texts, b: Budget, ss: seq<string>, i: nat, ws: seq<Window>, start: nat)
    requires Grouping(t, b, ss, i, ws, start) && i < |ss|
    requires start == i || Span(t, ss, start, i + 1) <= b.maxTokens
    ensures Grouping(t, b, ss, i + 1, ws, start)
  {
    if i == 0 {
      assert ws + [Window(0, 1)] == [Window(0, 1)];
    } else {
      Extend(t, b, ss, ws, start, i);
    }
  }

  lemma Closed(t: Texts, b: Budget, ss: seq<string>, i: nat, ws: seq<Window>, start: nat, s: nat)
    requires Grouping(t, b, ss, i, ws, start) && start <= s < i < |ss|
    requires Span(t, ss, start, i + 1) > b.maxTokens
    requires OverlapAt(t, ss, b.overlapTokens, start, i, s)
    ensures Grouping(t, b, ss, i + 1, ws + [Window(start, i)], s)
  {
    Reopen(t, b, ss, ws, start, i, s);
  }

  /** The open sentences are start..i, and their cost is counted. */
  ghost predicate Open(t: Texts, ss: seq<string>, start: nat, i: nat, current: seq<string>, tokens: nat) {
    start <= i <= |ss| && current == ss[start..i] && tokens == Span(t, ss, start, i)
  }

  lemma OneMoreOpen(t: Texts, ss: seq<string>, start: nat, i: nat, current: seq<string>, tokens: nat)
    requires i < |ss| && Open(t, ss, start, i, current, tokens)
    ensures Open(t, ss, start, i + 1, current + [ss[i]], tokens + t.cost(ss[i]))
    ensures current == [] <==> start == i
  {
  }

  /** The overlap of the open window start..i, as a place in the whole list. */
  method KeepTail(
    t: Texts, b: Budget, current: seq<string>, ghost ss: seq<string>, ghost start: nat, ghost i: nat,
    ghost cost: nat)
    returns (kept: seq<string>, tokens: nat, ghost s: nat)
    requires start < i && Open(t, ss, start, i, current, cost)
    ensures start <= s < i && Open(t, ss, s, i, kept, tokens)
    ensures OverlapAt(t, ss, b.overlapTokens, start, i, s)
  {
    kept, tokens := Overlap(t, b, current);
    s := i - |kept|;
    OverlapInList(t, ss, b.overlapTokens, start, i, s);
    SpanOfSlice(t, ss, start, i, s - start, i - start);
    TailOfSlice(ss, start, i, |kept|);
  }

  lemma TailOfSlice(ss: seq<string>, start: nat, i: nat, n: nat)
    requires start <= i <= |ss| && n <= i - start
    ensures ss[start..i][i - start - n..] == ss[i - n..i]
  {
  }

  /** The grouping loop of `_split_with_overlap`. */
  method Group(t: Texts, b: Budget, ss: seq<string>) returns (pieces: seq<string>, ghost ws: seq<Window>)
    ensures Windows(t, b, ss, ws) && pieces == Pieces(ss, ws)
  {
    var current: seq<string>, tokens: nat := [], 0;
    pieces, ws := [], [];
    ghost var start: nat := 0;
    for i := 0 to |ss|
      invariant Grouping(t, b, ss, i, ws, start)
      invariant Open(t, ss, start, i, current, tokens)
      invariant pieces == Pieces(ss, ws)
    {
      var sentence := ss[i];
      OneMoreOpen(t, ss, start, i, current, tokens);
      if current != [] && tokens + t.cost(sentence) > b.maxTokens {
        PiecesSnoc(ss, ws, start, i);
        pieces := pieces + [JoinedBy(" ", current)];
        ghost var s;
        current, tokens, s := KeepTail(t, b, current, ss, start, i, tokens);
        Closed(t, b, ss, i, ws, start, s);
        ws, start := ws + [Window(start, i)], s;
        OneMoreOpen(t, ss, start, i, current, tokens);
      } else {
        Added(t, b, ss, i, ws, start);
      }
      current, tokens := current + [sentence], tokens + t.cost(sentence);
    }
    if current != [] {
      PiecesSnoc(ss, ws, start, |ss|);
      pieces := pieces + [JoinedBy(" ", current)];
      ws := ws + [Window(start, |ss|)];
    }
  }

  // ---- what follows from being windows ----

  /** Any prefix of a chain is one. */
  lemma {:induction false} ChainPrefix(t: Texts, b: Budget, ss: seq<string>, ws: seq<Window>, n: nat)
    requires n <= |ws| && Chain(t, b, ss, ws)
    ensures Chain(t, b, ss, ws[..n])
  {
    if n < |ws| {
      if |ws| > 1 {
        ChainPrefix(t, b, ss, ws[..|ws| - 1], n);
        assert ws[..|ws| - 1][..n] == ws[..n];
      }
    } else {
      assert ws[..n] == ws;
    }
  }

  /** The window at k, seen from the front. */
  lemma {:induction false} WindowAt(t: Texts, b: Budget, ss: seq<string>, ws: seq<Window>, k: nat)
    requires k < |ws| && Chain(t, b, ss, ws)
    ensures if k == 0 then ws[0].start == 0 && Fits(t, b, ss, ws[0], 0) else Follows(t, b, ss, ws[k - 1], ws[k])
  {
    ChainPrefix(t, b, ss, ws, k + 1);
  }

  /** Every window stays within the budget, or within its overlap and one forced sentence. */
  lemma WindowCost(t: Texts, b: Budget, ss: seq<string>, ws: seq<Window>, m: nat, k: nat)
    requires Windows(t, b, ss, ws) && k < |ws|
    requires forall i | 0 <= i < |ss| :: t.cost(ss[i]) <= m
    ensures ws[k].start < ws[k].end <= |ss|
    ensures Span(t, ss, ws[k].start, ws[k].end) <= Max(b.maxTokens, Max(b.overlapTokens, m) + m)
  {
    WindowAt(t, b, ss, ws, k);
    var w, forced := ws[k], if k == 0 then 0 else ws[k - 1].end;
    if w.end == forced + 1 {
      SpanGrows(t, ss, w.start, forced, w.end);
    }
  }

  /** What windows 0..n add, each without the sentences it shares with the one before. */
  ghost function News(t: Texts, b: Budget, ss: seq<string>, ws: seq<Window>): seq<string>
    requires Chain(t, b, ss, ws)
  {
    if ws == [] then []
    else
      var last := ws[|ws| - 1];
      var window := ss[last.start..last.end];
      if |ws| == 1 then window
      else News(t, b, ss, ws[..|ws| - 1]) + window[ws[|ws| - 2].end - last.start..]
  }

  lemma {:induction false} NewsUpTo(t: Texts, b: Budget, ss: seq<string>, ws: seq<Window>)
    requires ws != [] && Chain(t, b, ss, ws)
    ensures News(t, b, ss, ws) == ss[..ws[|ws| - 1].end]
  {
    if |ws| > 1 {
      var v, w := ws[|ws| - 2], ws[|ws| - 1];
      NewsUpTo(t, b, ss, ws[..|ws| - 1]);
      assert ss[w.start..w.end][v.end - w.start..] == ss[v.end..w.end];
    }
  }

  /** Dropping every overlap rebuilds the sentence list: nothing is lost, reordered or invented. */
  lemma DroppingOverlapsRebuilds(t: Texts, b: Budget, ss: seq<string>, ws: seq<Window>)
    requires Windows(t, b, ss, ws)
    ensures News(t, b, ss, ws) == ss
  {
    if ss != [] {
      NewsUpTo(t, b, ss, ws);
    }
  }

  lemma SameOverlap(t: Texts, ss: seq<string>, overlap: nat, start: nat, end: nat, p: nat, q: nat)
    requires start <= p < end <= |ss| && start <= q < end
    requires OverlapAt(t, ss, overlap, start, end, p) && OverlapAt(t, ss, overlap, start, end, q)
    ensures p == q
  {
    if p < q {
      SpanGrows(t, ss, p, q - 1, end);
    } else if q < p {
      SpanGrows(t, ss, q, p - 1, end);
    }
  }

  /** A window that was closed for want of budget is as long as any other that starts where it does. */
  lemma NotLonger(t: Texts, b: Budget, ss: seq<string>, v: seq<Window>, w: seq<Window>, k: nat, forced: nat)
    requires Windows(t, b, ss, v) && Windows(t, b, ss, w) && k < |v| && k < |w|
    requires v[k].start == w[k].start && Fits(t, b, ss, v[k], forced) && Fits(t, b, ss, w[k], forced)
    ensures v[k].end <= w[k].end
  {
    if k + 1 < |w| {
      WindowAt(t, b, ss, w, k + 1);
    }
  }

  /** The description leaves no choice: two window lists agree at every place of the first. */
  lemma {:induction false} WindowsAgree(t: Texts, b: Budget, ss: seq<string>, v: seq<Window>, w: seq<Window>, k: nat)
    requires Windows(t, b, ss, v) && Windows(t, b, ss, w) && k < |v|
    ensures k < |w| && v[k] == w[k]
  {
    WindowAt(t, b, ss, v, k);
    if k > 0 {
      WindowsAgree(t, b, ss, v, w, k - 1);
      if k < |w| {
        WindowAt(t, b, ss, w, k);
        SameOverlap(t, ss, b.overlapTokens, v[k - 1].start, v[k - 1].end, v[k].start, w[k].start);
      }
    } else {
      WindowAt(t, b, ss, w, 0);
    }
    if k < |w| {
      var forced := if k == 0 then 0 else v[k - 1].end;
      NotLonger(t, b, ss, v, w, k, forced);
      NotLonger(t, b, ss, w, v, k, forced);
    }
  }

  lemma WindowsAreUnique(t: Texts, b: Budget, ss: seq<string>, v: seq<Window>, w: seq<Window>)
    requires Windows(t, b, ss, v) && Windows(t, b, ss, w)
    ensures v == w
  {
    forall k | 0 <= k < |v|
      ensures k < |w| && v[k] == w[k]
    {
      WindowsAgree(t, b, ss, v, w, k);
    }
    if |v| < |w| {
      WindowsAgree(t, b, ss, w, v, |v|);
    }
  }

  // ---- the whole function ----

  /** Segments, with those over the budget cut into sentences. */
  function Flattened(t: Texts, b: Budget, segments: seq<string>): seq<string> {
    if segments == [] then []
    else
      var s := segments[|segments| - 1];
      Flattened(t, b, segments[..|segments| - 1])
      + if t.cost(s) <= b.maxTokens || t.sentences(s) == [] then [s] else t.sentences(s)
  }

  /** What one segment is cut into: itself if it fits or has no sentences, else its sentences. */
  function OwnSentences(t: Texts, b: Budget, segment: string): seq<string> {
    if t.cost(segment) > b.maxTokens && t.sentences(segment) != [] then t.sentences(segment) else [segment]
  }

  /** The sentences of the segments, one segment after another. */
  ghost predicate AreSentences(t: Texts, b: Budget, segments: seq<string>, ss: seq<string>) {
    if segments == [] then ss == []
    else
      var own := OwnSentences(t, b, segments[0]);
      own <= ss && AreSentences(t, b, segments[1..], ss[|own|..])
  }

  lemma {:induction false} FlattenedConcat(t: Texts, b: Budget, x: seq<string>, y: seq<string>)
    ensures Flattened(t, b, x + y) == Flattened(t, b, x) + Flattened(t, b, y)
  {
    if y == [] {
      assert x + y == x;
    } else {
      assert (x + y)[..|x + y| - 1] == x + y[..|y| - 1];
      FlattenedConcat(t, b, x, y[..|y| - 1]);
    }
  }

  lemma {:induction false} FlattenedReads(t: Texts, b: Budget, segments: seq<string>)
    ensures AreSentences(t, b, segments, Flattened(t, b, segments))
  {
    if segments == [] {
    } else {
      var own, rest := OwnSentences(t, b, segments[0]), Flattened(t, b, segments[1..]);
      assert segments == [segments[0]] + segments[1..];
      FlattenedConcat(t, b, [segments[0]], segments[1..]);
      assert [segments[0]][..0] == [] && Flattened(t, b, []) == [];
      assert Flattened(t, b, [segments[0]]) == own;
      assert (own + rest)[|own|..] == rest;
      FlattenedReads(t, b, segments[1..]);
    }
  }

  /** One piece for each window: its sentences with single spaces between them. */
  ghost predicate ArePieces(ss: seq<string>, ws: seq<Window>, pieces: seq<string>) {
    && |pieces| == |ws|
    && forall k | 0 <= k < |ws| ::
         ws[k].start <= ws[k].end <= |ss| && IsJoined(" ", ss[ws[k].start..ws[k].end], pieces[k])
  }

  lemma {:induction false} PiecesRead(ss: seq<string>, ws: seq<Window>)
    requires forall k | 0 <= k < |ws| :: ws[k].start <= ws[k].end <= |ss|
    ensures ArePieces(ss, ws, Pieces(ss, ws))
  {
    if ws == [] {
    } else {
      var init, w := ws[..|ws| - 1], ws[|ws| - 1];
      PiecesRead(ss, init);
      JoinedReads(" ", ss[w.start..w.end]);
    }
  }

  /** The text in pieces of whole sentences, as its windows cut it. */
  ghost predicate IsSplit(t: Texts, b: Budget, text: string, pieces: seq<string>) {
    if t.preSplit(text) == [] then pieces == if t.strip(text) != "" then [text] else []
    else exists ss, ws ::
      AreSentences(t, b, t.preSplit(text), ss) && Windows(t, b, ss, ws) && ArePieces(ss, ws, pieces)
  }

  lemma SplitReads(t: Texts, b: Budget, text: string, ws: seq<Window>)
    requires t.preSplit(text) != [] && Windows(t, b, Flattened(t, b, t.preSplit(text)), ws)
    ensures IsSplit(t, b, text, Pieces(Flattened(t, b, t.preSplit(text)), ws))
  {
    var ss := Flattened(t, b, t.preSplit(text));
    FlattenedReads(t, b, t.preSplit(text));
    forall k | 0 <= k < |ws|
      ensures ws[k].start <= ws[k].end <= |ss|
    {
      WindowAt(t, b, ss, ws, k);
    }
    PiecesRead(ss, ws);
  }

  /** `_split_with_overlap`. */
  method SplitWithOverlap(t: Texts, b: Budget, text: string) returns (pieces: seq<string>)
    ensures IsSplit(t, b, text, pieces)
  {
    var segments := t.preSplit(text);
    if segments == [] {
      return if t.strip(text) != "" then [text] else [];
    }
    var sentences: seq<string> := [];
    for i := 0 to |segments|
      invariant sentences == Flattened(t, b, segments[..i])
    {
      var segment := segments[i];
      assert segments[..i + 1][..i] == segments[..i];
      if t.cost(segment) <= b.maxTokens {
        sentences := sentences + [segment];
      } else {
        var sub := t.sentences(segment);
        sentences := sentences + if sub == [] then [segment] else sub;
      }
    }
    assert segments[..|segments|] == segments;
    ghost var ws;
    pieces, ws := Group(t, b, sentences);
    SplitReads(t, b, text, ws);
  }
}
