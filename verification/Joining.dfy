/** Strings joined by a separator. */
module Joining {

  /** `separator.join(parts)`. */
  function JoinedBy(separator: string, parts: seq<string>): string {
    if parts == [] then "" else if |parts| == 1 then parts[0]
    else JoinedBy(separator, parts[..|parts| - 1]) + separator + parts[|parts| - 1]
  }

  /** The text is the parts in order with one separator between any two neighbours and nothing else. */
  ghost predicate IsJoined(separator: string, parts: seq<string>, text: string) {
    if parts == [] then text == ""
    else if |parts| == 1 then text == parts[0]
    else exists rest :: StartsWith(text, parts[0] + separator, rest) && IsJoined(separator, parts[1..], rest)
  }

  predicate StartsWith(text: string, start: string, rest: string) {
    text == start + rest
  }

  lemma {:induction false} JoinedFromFront(separator: string, parts: seq<string>)
    requires |parts| > 1
    ensures JoinedBy(separator, parts) == parts[0] + separator + JoinedBy(separator, parts[1..])
  {
    var init, last := parts[..|parts| - 1], parts[|parts| - 1];
    if |parts| == 2 {
      assert parts[1..] == [parts[1]] && init == [parts[0]];
    } else {
      JoinedFromFront(separator, init);
      assert parts[1..][..|parts| - 2] == init[1..];
      assert parts[1..][|parts| - 2] == last;
    }
  }

  lemma {:induction false} JoinedReads(separator: string, parts: seq<string>)
    ensures IsJoined(separator, parts, JoinedBy(separator, parts))
  {
    if |parts| > 1 {
      var rest := JoinedBy(separator, parts[1..]);
      JoinedFromFront(separator, parts);
      JoinedReads(separator, parts[1..]);
      assert StartsWith(JoinedBy(separator, parts), parts[0] + separator, rest);
    }
  }

  lemma {:induction false} JoinedIsLonger(separator: string, parts: seq<string>, i: nat)
    requires i < |parts|
    ensures |JoinedBy(separator, parts)| >= |parts[i]|
  {
    if i < |parts| - 1 {
      JoinedIsLonger(separator, parts[..|parts| - 1], i);
    }
  }
}
