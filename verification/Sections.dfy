/** Sections of a markdown text, the heading each chunk sits under, and the chunks of a file. */
module Sections {
  import opened Joining
  import opened OverlapWindows

  /** A heading match: its span, its level and its stripped text. */
  datatype Match = Match(start: nat, end: nat, level: nat, heading: string)

  datatype Section = Section(level: nat, heading: string, body: string, offset: nat)

  /** Matches come in order, do not overlap, and are never empty: a heading needs at least "# x". */
  ghost predicate WellPlaced(content: string, ms: seq<Match>) {
    && (forall i | 0 <= i < |ms| :: ms[i].start < ms[i].end <= |content| && 1 <= ms[i].level <= 6)
    && (forall i | 0 < i < |ms| :: ms[i - 1].end <= ms[i].start)
  }

  // ---- sections ----

  function BodyEnd(content: string, ms: seq<Match>, i: nat): nat
    requires i < |ms|
  {
    if i + 1 < |ms| then ms[i + 1].start else |content|
  }

  function HeadingSection(content: string, ms: seq<Match>, i: nat): Section
    requires i < |ms| && WellPlaced(content, ms)
  {
    Section(ms[i].level, ms[i].heading, content[ms[i].end..BodyEnd(content, ms, i)], ms[i].end)
  }

  function HeadingSections(content: string, ms: seq<Match>, n: nat): seq<Section>
    requires n <= |ms| && WellPlaced(content, ms)
  {
    if n == 0 then [] else HeadingSections(content, ms, n - 1) + [HeadingSection(content, ms, n - 1)]
  }

  /** Text before the first heading is a section of level 0, unless it is blank and a heading follows. */
  function Preamble(strip: string -> string, content: string, ms: seq<Match>): seq<Section>
    requires WellPlaced(content, ms)
  {
    var text := content[..if ms == [] then |content| else ms[0].start];
    if ms == [] || strip(text) != "" then [Section(0, "", text, 0)] else []
  }

  function Parsed(strip: string -> string, content: string, ms: seq<Match>): seq<Section>
    requires WellPlaced(content, ms)
  {
    Preamble(strip, content, ms) + HeadingSections(content, ms, |ms|)
  }

  /** `_parse_sections`. */
  method ParseSections(strip: string -> string, content: string, ms: seq<Match>) returns (ss: seq<Section>)
    requires WellPlaced(content, ms)
    ensures ss == Parsed(strip, content, ms)
  {
    ss := [];
    var lastEnd: nat, lastLevel: nat, lastHeading := 0, 0, "";
    for i := 0 to |ms|
      invariant i == 0 ==> lastEnd == 0 && ss == []
      invariant i > 0 ==> lastEnd == ms[i - 1].end && lastLevel == ms[i - 1].level && lastHeading == ms[i - 1].heading
      invariant i > 0 ==> ss == Preamble(strip, content, ms) + HeadingSections(content, ms, i - 1)
    {
      var m := ms[i];
      var body := content[lastEnd..m.start];
      assert i == 0 ==> body == content[..m.start];
      if lastEnd == 0 && strip(body) != "" {
        ss := ss + [Section(0, "", body, 0)];
      } else if lastEnd > 0 {
        ss := ss + [Section(lastLevel, lastHeading, body, lastEnd)];
      }
      lastLevel, lastHeading, lastEnd := m.level, m.heading, m.end;
    }
    var trailing := content[lastEnd..];
    assert trailing == content[lastEnd..|content|];
    assert lastEnd == 0 ==> trailing == content[..|content|];
    if lastEnd == 0 {
      ss := ss + [Section(0, "", trailing, 0)];
    } else {
      ss := ss + [Section(lastLevel, lastHeading, trailing, lastEnd)];
    }
  }

  /** The first n heading spans, each followed by the body of its section. */
  ghost function Interleaved(content: string, ms: seq<Match>, sections: seq<Section>, n: nat): string
    requires WellPlaced(content, ms) && |sections| == |ms| && n <= |ms|
  {
    if n == 0 then ""
    else
      Interleaved(content, ms, sections, n - 1) + content[ms[n - 1].start..ms[n - 1].end] + sections[n - 1].body
  }

  lemma {:induction false} HeadingSectionAt(content: string, ms: seq<Match>, n: nat, i: nat)
    requires WellPlaced(content, ms) && i < n <= |ms|
    ensures |HeadingSections(content, ms, n)| == n
    ensures HeadingSections(content, ms, n)[i] == HeadingSection(content, ms, i)
  {
    if n > 1 {
      HeadingSectionAt(content, ms, n - 1, if i < n - 1 then i else 0);
    }
  }

  lemma {:induction false} InterleavedUpTo(content: string, ms: seq<Match>, sections: seq<Section>, n: nat)
    requires WellPlaced(content, ms) && |sections| == |ms| && 0 < n <= |ms|
    requires forall k | 0 <= k < |ms| :: sections[k] == HeadingSection(content, ms, k)
    ensures ms[0].start <= ms[n - 1].start
    ensures Interleaved(content, ms, sections, n) == content[ms[0].start..BodyEnd(content, ms, n - 1)]
  {
    var m, end := ms[n - 1], BodyEnd(content, ms, n - 1);
    assert content[m.start..m.end] + content[m.end..end] == content[m.start..end];
    if n > 1 {
      InterleavedUpTo(content, ms, sections, n - 1);
      assert content[ms[0].start..m.start] + content[m.start..m.end] + content[m.end..end]
          == content[ms[0].start..end];
    }
  }

  /**
   * The section bodies between the heading spans rebuild the text. What comes before is the body of the
   * level-0 section, or a blank preamble that is dropped.
   */
  lemma SectionsRebuildText(strip: string -> string, content: string, ms: seq<Match>) returns (preamble: string)
    requires WellPlaced(content, ms)
    ensures
      var ss := Parsed(strip, content, ms);
      var kept := |ss| - |ms|;
      && 0 <= kept <= 1
      && (if kept == 1 then ss[0] == Section(0, "", preamble, 0) else strip(preamble) == "")
      && preamble + Interleaved(content, ms, ss[kept..], |ms|) == content
  {
    if ms == [] {
      preamble := content;
      assert content[..|content|] == content;
    } else {
      preamble := content[..ms[0].start];
      HeadingsRebuildRest(content, ms);
      var hs := HeadingSections(content, ms, |ms|);
      assert Parsed(strip, content, ms)[|Preamble(strip, content, ms)|..] == hs;
      assert preamble + content[ms[0].start..] == content;
    }
  }

  /** Section k behind the preamble has the level and text of heading k and starts where that ends. */
  lemma SectionHasItsHeading(strip: string -> string, content: string, ms: seq<Match>, k: nat)
    requires WellPlaced(content, ms) && k < |ms|
    ensures
      var ss := Parsed(strip, content, ms);
      var kept := |ss| - |ms|;
      && kept >= 0 && ss[kept + k].level == ms[k].level && ss[kept + k].heading == ms[k].heading
      && ss[kept + k].offset == ms[k].end
  {
    HeadingSectionAt(content, ms, |ms|, k);
    var hs := HeadingSections(content, ms, |ms|);
    assert Parsed(strip, content, ms)[|Preamble(strip, content, ms)| + k] == hs[k];
  }

  lemma HeadingsRebuildRest(content: string, ms: seq<Match>)
    requires WellPlaced(content, ms) && ms != []
    ensures |HeadingSections(content, ms, |ms|)| == |ms|
    ensures Interleaved(content, ms, HeadingSections(content, ms, |ms|), |ms|) == content[ms[0].start..]
  {
    var hs := HeadingSections(content, ms, |ms|);
    HeadingSectionAt(content, ms, |ms|, 0);
    forall k | 0 <= k < |ms|
      ensures hs[k] == HeadingSection(content, ms, k)
    {
      HeadingSectionAt(content, ms, |ms|, k);
    }
    InterleavedUpTo(content, ms, hs, |ms|);
  }

  // ---- the heading stack ----

  const DEEPEST: nat := 6

  /** The seven slots after n sections. */
  function Slots(ss: seq<Section>, n: nat): (h: seq<string>)
    requires n <= |ss|
    ensures |h| == DEEPEST + 1
  {
    if n == 0 then seq(DEEPEST + 1, _ => "")
    else Entered(Slots(ss, n - 1), ss[n - 1])
  }

  /** A heading takes its slot and clears the deeper ones. */
  function Entered(h: seq<string>, s: Section): (h': seq<string>)
    requires |h| == DEEPEST + 1
    ensures |h'| == DEEPEST + 1
  {
    if s.level == 0 then h
    else seq(DEEPEST + 1, j requires 0 <= j <= DEEPEST => Slot(h, s, j))
  }

  /** No heading as shallow as section i's has come between it and place n. */
  ghost predicate IsOpen(ss: seq<Section>, n: nat, i: nat)
    requires n <= |ss|
  {
    i < n && ss[i].level > 0 && forall k | i < k < n :: ss[k].level == 0 || ss[k].level > ss[i].level
  }

  function Slot(h: seq<string>, s: Section, j: nat): string
    requires |h| == DEEPEST + 1 && j <= DEEPEST
  {
    if j == s.level then s.heading else if j > s.level then "" else h[j]
  }

  /** Section i is the latest heading of level j before n, with no shallower one since. */
  ghost predicate Latest(ss: seq<Section>, n: nat, j: nat, i: nat)
    requires n <= |ss|
  {
    IsOpen(ss, n, i) && ss[i].level == j
  }

  /** Slot j holds the latest level-j heading with no shallower heading since, or nothing. */
  lemma {:induction false} SlotMeaning(ss: seq<Section>, n: nat, j: nat)
    requires n <= |ss| && 1 <= j <= DEEPEST
    ensures (exists i: nat :: Latest(ss, n, j, i) && Slots(ss, n)[j] == ss[i].heading)
         || (Slots(ss, n)[j] == "" && forall i: nat :: !Latest(ss, n, j, i))
  {
    if n == 0 {
    } else {
      SlotMeaning(ss, n - 1, j);
      var level := ss[n - 1].level;
      if level == j {
        assert Latest(ss, n, j, n - 1);
      } else if level == 0 || level > j {
        forall i: nat
          ensures Latest(ss, n, j, i) <==> Latest(ss, n - 1, j, i)
        {
        }
      } else {
        forall i: nat
          ensures !Latest(ss, n, j, i)
        {
        }
      }
    }
  }

  function NonEmpty(s: string): seq<string> {
    if s == "" then [] else [s]
  }

  /** The filled slots 1..j, shallowest first. */
  function FilledSlots(h: seq<string>, j: nat): seq<string>
    requires j < |h|
  {
    if j == 0 then [] else FilledSlots(h, j - 1) + NonEmpty(h[j])
  }

  /** The headings before m that are open at n and no deeper than j, in the order of the text. */
  ghost function OpenHeadings(ss: seq<Section>, n: nat, j: nat, m: nat): seq<string>
    requires m <= n <= |ss|
  {
    if m == 0 then []
    else
      OpenHeadings(ss, n, j, m - 1)
      + if IsOpen(ss, n, m - 1) && ss[m - 1].level <= j then NonEmpty(ss[m - 1].heading) else []
  }

  lemma {:induction false} SameSlots(h: seq<string>, h': seq<string>, j: nat)
    requires j < |h| && j < |h'| && forall k | 1 <= k <= j :: h[k] == h'[k]
    ensures FilledSlots(h, j) == FilledSlots(h', j)
  {
    if j == 0 {
    } else {
      SameSlots(h, h', j - 1);
    }
  }

  lemma {:induction false} SlotsBelowEntry(h: seq<string>, s: Section, j: nat)
    requires |h| == DEEPEST + 1 && 1 <= s.level <= j <= DEEPEST
    ensures FilledSlots(Entered(h, s), j) == FilledSlots(h, s.level - 1) + NonEmpty(s.heading)
  {
    if j > s.level {
      SlotsBelowEntry(h, s, j - 1);
    } else {
      SameSlots(Entered(h, s), h, j - 1);
    }
  }

  /** A deeper heading, or none, leaves the shallower ones open. */
  lemma {:induction false} DeeperKeepsOpen(ss: seq<Section>, n: nat, j: nat, m: nat)
    requires m <= n < |ss| && (ss[n].level == 0 || ss[n].level > j)
    ensures OpenHeadings(ss, n + 1, j, m) == OpenHeadings(ss, n, j, m)
  {
    if m == 0 {
    } else {
      DeeperKeepsOpen(ss, n, j, m - 1);
      if ss[m - 1].level <= j {
        assert IsOpen(ss, n + 1, m - 1) <==> IsOpen(ss, n, m - 1);
      }
    }
  }

  /** A heading closes those as deep as itself and keeps the shallower ones. */
  lemma {:induction false} HeadingCloses(ss: seq<Section>, n: nat, j: nat, m: nat)
    requires m <= n < |ss| && 0 < ss[n].level <= j
    ensures OpenHeadings(ss, n + 1, j, m) == OpenHeadings(ss, n, ss[n].level - 1, m)
  {
    if m == 0 {
    } else {
      HeadingCloses(ss, n, j, m - 1);
      assert IsOpen(ss, n + 1, m - 1) <==> IsOpen(ss, n, m - 1) && ss[m - 1].level < ss[n].level;
    }
  }

  lemma DeeperStep(ss: seq<Section>, n: nat, j: nat)
    requires n < |ss| && (ss[n].level == 0 || ss[n].level > j)
    ensures OpenHeadings(ss, n + 1, j, n + 1) == OpenHeadings(ss, n, j, n)
  {
    DeeperKeepsOpen(ss, n, j, n);
  }

  lemma HeadingStep(ss: seq<Section>, n: nat, j: nat)
    requires n < |ss| && 0 < ss[n].level <= j
    ensures OpenHeadings(ss, n + 1, j, n + 1) == OpenHeadings(ss, n, ss[n].level - 1, n) + NonEmpty(ss[n].heading)
  {
    HeadingCloses(ss, n, j, n);
  }

  ghost predicate LevelsInRange(ss: seq<Section>) {
    forall i | 0 <= i < |ss| :: ss[i].level <= DEEPEST
  }

  /** The stack read by slots is the list of open headings read by position. */
  lemma {:induction false} StackIsOpenHeadings(ss: seq<Section>, n: nat, j: nat)
    requires n <= |ss| && LevelsInRange(ss) && j <= DEEPEST
    ensures FilledSlots(Slots(ss, n), j) == OpenHeadings(ss, n, j, n)
    decreases n
  {
    if n == 0 {
      BlankSlots(Slots(ss, 0), j);
    } else {
      var level := ss[n - 1].level;
      if level == 0 || level > j {
        StackIsOpenHeadings(ss, n - 1, j);
        StackBelowDeeper(ss, n - 1, j);
      } else {
        StackIsOpenHeadings(ss, n - 1, level - 1);
        StackAtHeading(ss, n - 1, j);
      }
    }
  }

  lemma StackBelowDeeper(ss: seq<Section>, n: nat, j: nat)
    requires n < |ss| && j <= DEEPEST && (ss[n].level == 0 || ss[n].level > j)
    requires FilledSlots(Slots(ss, n), j) == OpenHeadings(ss, n, j, n)
    ensures FilledSlots(Slots(ss, n + 1), j) == OpenHeadings(ss, n + 1, j, n + 1)
  {
    DeeperStep(ss, n, j);
    DeeperSlots(Slots(ss, n), ss[n], j);
  }

  lemma StackAtHeading(ss: seq<Section>, n: nat, j: nat)
    requires n < |ss| && 0 < ss[n].level <= j <= DEEPEST
    requires FilledSlots(Slots(ss, n), ss[n].level - 1) == OpenHeadings(ss, n, ss[n].level - 1, n)
    ensures FilledSlots(Slots(ss, n + 1), j) == OpenHeadings(ss, n + 1, j, n + 1)
  {
    HeadingStep(ss, n, j);
    SlotsBelowEntry(Slots(ss, n), ss[n], j);
  }

  lemma DeeperSlots(h: seq<string>, s: Section, j: nat)
    requires |h| == DEEPEST + 1 && j <= DEEPEST && (s.level == 0 || s.level > j)
    ensures FilledSlots(Entered(h, s), j) == FilledSlots(h, j)
  {
    SameSlots(Entered(h, s), h, j);
  }

  lemma {:induction false} BlankSlots(h: seq<string>, j: nat)
    requires j < |h| && forall k | 0 <= k < |h| :: h[k] == ""
    ensures FilledSlots(h, j) == []
  {
    if j == 0 {
    } else {
      BlankSlots(h, j - 1);
    }
  }

  /** What `chunk_file` reads off the stack for section n. */
  function Hierarchy(ss: seq<Section>, n: nat): seq<string>
    requires n < |ss| && ss[n].level <= DEEPEST
  {
    FilledSlots(Slots(ss, n + 1), ss[n].level)
  }

  /** A section's hierarchy: the headings that enclose it, outermost first and ending with its own. */
  lemma {:induction false} HierarchyIsEnclosingHeadings(ss: seq<Section>, n: nat)
    requires n < |ss| && LevelsInRange(ss)
    ensures ss[n].level == 0 ==> Hierarchy(ss, n) == []
    ensures ss[n].level > 0 ==> Hierarchy(ss, n) == OpenHeadings(ss, n + 1, DEEPEST, n + 1)
    ensures ss[n].level > 0 ==>
              Hierarchy(ss, n) == OpenHeadings(ss, n, ss[n].level - 1, n) + NonEmpty(ss[n].heading)
  {
    var level := ss[n].level;
    if level > 0 {
      StackIsOpenHeadings(ss, n + 1, level);
      HeadingCloses(ss, n, level, n);
      HeadingCloses(ss, n, DEEPEST, n);
    }
  }

  // ---- chunks ----

  /** A chunk id: the hash of these three, which say nothing of the path. */
  datatype ChunkId = ChunkId(checksum: string, index: nat, strategy: string)

  datatype Chunk = Chunk(id: ChunkId, hierarchy: seq<string>, level: nat, text: string, index: nat)

  /** Heading path and stripped body; empty when there is neither body nor heading. */
  function SectionText(t: Texts, hierarchy: seq<string>, s: Section): string {
    var body := t.strip(s.body);
    if body == "" && s.heading == "" then ""
    else
      JoinedBy("\n\n", (if hierarchy != [] then [JoinedBy(" > ", hierarchy)] else [])
                       + (if body != "" then [body] else []))
  }

  /**
   * The text of a section, part by part: the headings that enclose it in order with " > " between them, then
   * its stripped body, with a blank line between the two; nothing when there is neither body nor heading.
   */
  ghost predicate IsSectionText(t: Texts, hierarchy: seq<string>, s: Section, text: string) {
    var body := t.strip(s.body);
    if body == "" && s.heading == "" then text == ""
    else if hierarchy == [] then text == body
    else exists path :: IsJoined(" > ", hierarchy, path) && text == path + if body == "" then "" else "\n\n" + body
  }

  lemma SectionTextReads(t: Texts, hierarchy: seq<string>, s: Section)
    ensures IsSectionText(t, hierarchy, s, SectionText(t, hierarchy, s))
  {
    var body, path := t.strip(s.body), JoinedBy(" > ", hierarchy);
    JoinedReads(" > ", hierarchy);
    if hierarchy != [] && body != "" {
      assert [path] + [body] == [path, body] && [path, body][..1] == [path];
      assert JoinedBy("\n\n", [path]) == path;
      assert SectionText(t, hierarchy, s) == path + "\n\n" + body;
      assert path + "\n\n" + body == path + ("\n\n" + body);
    } else if hierarchy != [] && s.heading != "" {
      assert SectionText(t, hierarchy, s) == path == path + "";
    }
  }

  /** A section is passed over exactly when its body is blank and it has no heading text. */
  lemma EmptySections(t: Texts, hierarchy: seq<string>, s: Section)
    requires s.heading != "" ==> s.heading in hierarchy
    ensures SectionText(t, hierarchy, s) == "" <==> t.strip(s.body) == "" && s.heading == ""
  {
    var body, path := t.strip(s.body), JoinedBy(" > ", hierarchy);
    var parts := (if hierarchy != [] then [path] else []) + (if body != "" then [body] else []);
    if body != "" {
      assert parts[|parts| - 1] == body;
      JoinedIsLonger("\n\n", parts, |parts| - 1);
    } else if s.heading != "" {
      var i :| 0 <= i < |hierarchy| && hierarchy[i] == s.heading;
      JoinedIsLonger(" > ", hierarchy, i);
      assert parts[0] == path;
      JoinedIsLonger("\n\n", parts, 0);
    }
  }

  /** What one section's text becomes. */
  ghost predicate IsCut(t: Texts, b: Budget, text: string, pieces: seq<string>) {
    if text == "" then pieces == []
    else if t.cost(text) <= b.maxTokens then pieces == [text]
    else IsSplit(t, b, text, pieces)
  }

  function Numbered(
    checksum: string, strategy: string, from: nat, hierarchy: seq<string>, level: nat, pieces: seq<string>)
    : (cs: seq<Chunk>)
    ensures |cs| == |pieces|
    ensures forall k | 0 <= k < |cs| ::
              cs[k] == Chunk(ChunkId(checksum, from + k, strategy), hierarchy, level, pieces[k], from + k)
  {
    seq(|pieces|, k requires 0 <= k < |pieces| =>
      Chunk(ChunkId(checksum, from + k, strategy), hierarchy, level, pieces[k], from + k))
  }

  /** The chunks of the first n sections, numbered through. */
  function ChunksOf(checksum: string, strategy: string, ss: seq<Section>, cuts: seq<seq<string>>, n: nat): seq<Chunk>
    requires n <= |ss| && n <= |cuts| && forall i | 0 <= i < |ss| :: ss[i].level <= DEEPEST
  {
    if n == 0 then []
    else
      var before := ChunksOf(checksum, strategy, ss, cuts, n - 1);
      before + Numbered(checksum, strategy, |before|, Hierarchy(ss, n - 1), ss[n - 1].level, cuts[n - 1])
  }

  predicate AreNumbered(checksum: string, strategy: string, from: nat, cs: seq<Chunk>) {
    forall k | 0 <= k < |cs| :: cs[k].index == from + k && cs[k].id == ChunkId(checksum, from + k, strategy)
  }

  /** Chunk indices are 0..n-1, and ids are distinct and carry the index. */
  lemma {:induction false} ChunksAreNumbered(
    checksum: string, strategy: string, ss: seq<Section>, cuts: seq<seq<string>>, n: nat)
    requires n <= |ss| && n <= |cuts| && LevelsInRange(ss)
    ensures AreNumbered(checksum, strategy, 0, ChunksOf(checksum, strategy, ss, cuts, n))
    ensures forall j, k | 0 <= j < k < |ChunksOf(checksum, strategy, ss, cuts, n)| ::
              ChunksOf(checksum, strategy, ss, cuts, n)[j].id != ChunksOf(checksum, strategy, ss, cuts, n)[k].id
  {
    if n == 0 {
    } else {
      ChunksAreNumbered(checksum, strategy, ss, cuts, n - 1);
      var before := ChunksOf(checksum, strategy, ss, cuts, n - 1);
      var more := Numbered(checksum, strategy, |before|, Hierarchy(ss, n - 1), ss[n - 1].level, cuts[n - 1]);
      NumberedThrough(checksum, strategy, before, more);
    }
  }

  /** Chunks numbered from 0 and more numbered behind them are numbered together. */
  lemma NumberedThrough(checksum: string, strategy: string, before: seq<Chunk>, more: seq<Chunk>)
    requires AreNumbered(checksum, strategy, 0, before) && AreNumbered(checksum, strategy, |before|, more)
    ensures AreNumbered(checksum, strategy, 0, before + more)
  {
    forall k | 0 <= k < |before + more|
      ensures (before + more)[k].index == k && (before + more)[k].id == ChunkId(checksum, k, strategy)
    {
      if k >= |before| {
        assert more[k - |before|].index == |before| + (k - |before|);
      }
    }
  }

  function TextsOf(cs: seq<Chunk>): (texts: seq<string>)
    ensures |texts| == |cs| && forall i | 0 <= i < |texts| :: texts[i] == cs[i].text
  {
    seq(|cs|, i requires 0 <= i < |cs| => cs[i].text)
  }

  function AllPieces(cuts: seq<seq<string>>): seq<string> {
    if cuts == [] then [] else cuts[0] + AllPieces(cuts[1..])
  }

  lemma {:induction false} AllPiecesSnoc(cuts: seq<seq<string>>, pieces: seq<string>)
    ensures AllPieces(cuts + [pieces]) == AllPieces(cuts) + pieces
  {
    if cuts == [] {
      assert [pieces][1..] == [] && pieces + [] == pieces;
    } else {
      assert (cuts + [pieces])[1..] == cuts[1..] + [pieces];
      AllPiecesSnoc(cuts[1..], pieces);
    }
  }

  /** The chunks' texts are the pieces of the sections, one section after another: none is lost or added. */
  lemma {:induction false} ChunkTextsAreThePieces(
    checksum: string, strategy: string, ss: seq<Section>, cuts: seq<seq<string>>, n: nat)
    requires n <= |ss| && n <= |cuts| && LevelsInRange(ss)
    ensures TextsOf(ChunksOf(checksum, strategy, ss, cuts, n)) == AllPieces(cuts[..n])
  {
    if n == 0 {
    } else {
      var before := ChunksOf(checksum, strategy, ss, cuts, n - 1);
      var more := Numbered(checksum, strategy, |before|, Hierarchy(ss, n - 1), ss[n - 1].level, cuts[n - 1]);
      ChunkTextsAreThePieces(checksum, strategy, ss, cuts, n - 1);
      assert cuts[..n] == cuts[..n - 1] + [cuts[n - 1]];
      AllPiecesSnoc(cuts[..n - 1], cuts[n - 1]);
      assert TextsOf(before + more) == TextsOf(before) + TextsOf(more);
      assert TextsOf(more) == cuts[n - 1];
    }
  }

  /** A piece of section i under the headings that enclose the section. */
  ghost predicate IsFrom(ss: seq<Section>, cuts: seq<seq<string>>, i: nat, c: Chunk)
    requires i < |ss| && i < |cuts|
  {
    && c.text in cuts[i] && c.level == ss[i].level
    && c.hierarchy == if ss[i].level == 0 then [] else OpenHeadings(ss, i + 1, DEEPEST, i + 1)
  }

  /** Every chunk is a piece of some section and carries that section's enclosing headings. */
  lemma {:induction false} ChunkHasItsHeadings(
    checksum: string, strategy: string, ss: seq<Section>, cuts: seq<seq<string>>, n: nat, c: Chunk)
    requires n <= |ss| && n <= |cuts| && LevelsInRange(ss)
    requires c in ChunksOf(checksum, strategy, ss, cuts, n)
    ensures exists i :: 0 <= i < n && IsFrom(ss, cuts, i, c)
  {
    var before := ChunksOf(checksum, strategy, ss, cuts, n - 1);
    if c in before {
      ChunkHasItsHeadings(checksum, strategy, ss, cuts, n - 1, c);
    } else {
      HierarchyIsEnclosingHeadings(ss, n - 1);
      NumberedMember(checksum, strategy, |before|, Hierarchy(ss, n - 1), ss[n - 1].level, cuts[n - 1], c);
      assert IsFrom(ss, cuts, n - 1, c);
    }
  }

  lemma NumberedMember(
    checksum: string, strategy: string, from: nat, hierarchy: seq<string>, level: nat, pieces: seq<string>, c: Chunk)
    requires c in Numbered(checksum, strategy, from, hierarchy, level, pieces)
    ensures c.text in pieces && c.level == level && c.hierarchy == hierarchy
  {
    var k :| 0 <= k < |pieces| && Numbered(checksum, strategy, from, hierarchy, level, pieces)[k] == c;
    assert pieces[k] == c.text;
  }

  /** Record a heading in the stack and clear the deeper slots. */
  method EnterHeading(hierarchy: array<string>, s: Section)
    requires hierarchy.Length == DEEPEST + 1 && s.level <= DEEPEST
    modifies hierarchy
    ensures hierarchy[..] == Entered(old(hierarchy[..]), s)
  {
    if s.level > 0 {
      hierarchy[s.level] := s.heading;
      for i := s.level + 1 to DEEPEST + 1
        invariant forall j | 0 <= j < s.level :: hierarchy[j] == old(hierarchy[j])
        invariant hierarchy[s.level] == s.heading
        invariant forall j | s.level < j < i :: hierarchy[j] == ""
      {
        hierarchy[i] := "";
      }
    }
  }

  /** `hierarchy[1 : level + 1]` without its empty slots. */
  method ReadStack(hierarchy: array<string>, level: nat) returns (headings: seq<string>)
    requires hierarchy.Length == DEEPEST + 1 && level <= DEEPEST
    ensures headings == FilledSlots(hierarchy[..], level)
  {
    headings := [];
    for j := 1 to level + 1
      invariant headings == FilledSlots(hierarchy[..], j - 1)
    {
      if hierarchy[j] != "" {
        headings := headings + [hierarchy[j]];
      }
    }
  }

  /** One section's text, whole if it fits the budget and in windows if not. */
  method CutSection(t: Texts, b: Budget, text: string) returns (pieces: seq<string>)
    ensures IsCut(t, b, text, pieces)
  {
    if text == "" {
      pieces := [];
    } else if t.cost(text) <= b.maxTokens {
      pieces := [text];
    } else {
      pieces := SplitWithOverlap(t, b, text);
    }
  }

  /**
   * `chunk_file` on a text whose front matter is gone. The chunks are the numbered cuts of its sections,
   * each under the hierarchy of its section.
   */
  method ChunkFile(t: Texts, b: Budget, checksum: string, strategy: string, content: string, ms: seq<Match>)
    returns (chunks: seq<Chunk>)
    requires WellPlaced(content, ms)
    ensures
      var ss := Parsed(t.strip, content, ms);
      LevelsInRange(ss) && exists cuts :: Cut(t, b, checksum, strategy, ss, |ss|, cuts, chunks)
  {
    var ss := ParseSections(t.strip, content, ms);
    ParsedLevels(t.strip, content, ms);
    chunks := CutSections(t, b, checksum, strategy, ss);
  }

  /** What section n becomes, under the hierarchy it is read with. */
  ghost predicate CutAt(t: Texts, b: Budget, ss: seq<Section>, n: nat, pieces: seq<string>)
    requires n < |ss| && ss[n].level <= DEEPEST
  {
    exists text :: IsSectionText(t, Hierarchy(ss, n), ss[n], text) && IsCut(t, b, text, pieces)
  }

  /** One pass of the section loop: enter the heading, read the stack, cut the text. */
  method CutNext(t: Texts, b: Budget, ss: seq<Section>, n: nat, hierarchy: array<string>)
    returns (headings: seq<string>, pieces: seq<string>)
    requires n < |ss| && LevelsInRange(ss) && hierarchy.Length == DEEPEST + 1 && hierarchy[..] == Slots(ss, n)
    modifies hierarchy
    ensures hierarchy[..] == Slots(ss, n + 1) && headings == Hierarchy(ss, n)
    ensures CutAt(t, b, ss, n, pieces)
  {
    EnterHeading(hierarchy, ss[n]);
    headings := ReadStack(hierarchy, ss[n].level);
    pieces := CutSection(t, b, SectionText(t, headings, ss[n]));
    SectionTextReads(t, headings, ss[n]);
  }

  /** The chunks of the first n sections, and the cuts they come from. */
  ghost predicate Cut(
    t: Texts, b: Budget, checksum: string, strategy: string, ss: seq<Section>, n: nat, cuts: seq<seq<string>>,
    chunks: seq<Chunk>)
    requires n <= |ss| && LevelsInRange(ss)
  {
    && |cuts| == n && chunks == ChunksOf(checksum, strategy, ss, cuts, n)
    && forall k | 0 <= k < n :: CutAt(t, b, ss, k, cuts[k])
  }

  lemma CutGrows(
    t: Texts, b: Budget, checksum: string, strategy: string, ss: seq<Section>, n: nat, cuts: seq<seq<string>>,
    chunks: seq<Chunk>, pieces: seq<string>)
    requires n < |ss| && LevelsInRange(ss)
    requires Cut(t, b, checksum, strategy, ss, n, cuts, chunks) && CutAt(t, b, ss, n, pieces)
    ensures Cut(t, b, checksum, strategy, ss, n + 1, cuts + [pieces],
                chunks + Numbered(checksum, strategy, |chunks|, Hierarchy(ss, n), ss[n].level, pieces))
  {
    ChunksSnoc(checksum, strategy, ss, cuts, n, pieces);
  }

  /** The section loop of `chunk_file`. */
  method CutSections(t: Texts, b: Budget, checksum: string, strategy: string, ss: seq<Section>)
    returns (chunks: seq<Chunk>)
    requires LevelsInRange(ss)
    ensures exists cuts :: Cut(t, b, checksum, strategy, ss, |ss|, cuts, chunks)
  {
    chunks := [];
    ghost var cuts: seq<seq<string>> := [];
    var hierarchy := new string[DEEPEST + 1](_ => "");
    for n := 0 to |ss|
      invariant Cut(t, b, checksum, strategy, ss, n, cuts, chunks)
      invariant hierarchy[..] == Slots(ss, n)
    {
      var headings, pieces := CutNext(t, b, ss, n, hierarchy);
      CutGrows(t, b, checksum, strategy, ss, n, cuts, chunks, pieces);
      cuts := cuts + [pieces];
      chunks := chunks + Numbered(checksum, strategy, |chunks|, headings, ss[n].level, pieces);
    }
  }

  lemma ChunksSnoc(
    checksum: string, strategy: string, ss: seq<Section>, cuts: seq<seq<string>>, n: nat, pieces: seq<string>)
    requires n == |cuts| < |ss| && LevelsInRange(ss)
    ensures
      var before := ChunksOf(checksum, strategy, ss, cuts, n);
      ChunksOf(checksum, strategy, ss, cuts + [pieces], n + 1) ==
      before + Numbered(checksum, strategy, |before|, Hierarchy(ss, n), ss[n].level, pieces)
  {
    SameCuts(checksum, strategy, ss, cuts, cuts + [pieces], n);
  }

  lemma {:induction false} SameCuts(
    checksum: string, strategy: string, ss: seq<Section>, a: seq<seq<string>>, b: seq<seq<string>>, n: nat)
    requires n <= |ss| && n <= |a| && n <= |b| && LevelsInRange(ss)
    requires forall k | 0 <= k < n :: a[k] == b[k]
    ensures ChunksOf(checksum, strategy, ss, a, n) == ChunksOf(checksum, strategy, ss, b, n)
  {
    if n == 0 {
    } else {
      SameCuts(checksum, strategy, ss, a, b, n - 1);
    }
  }

  lemma ParsedLevels(strip: string -> string, content: string, ms: seq<Match>)
    requires WellPlaced(content, ms)
    ensures LevelsInRange(Parsed(strip, content, ms))
  {
    HeadingLevels(content, ms, |ms|);
  }

  lemma {:induction false} HeadingLevels(content: string, ms: seq<Match>, n: nat)
    requires n <= |ms| && WellPlaced(content, ms)
    ensures LevelsInRange(HeadingSections(content, ms, n))
  {
    if n == 0 {
    } else {
      HeadingLevels(content, ms, n - 1);
    }
  }
}
