/** Two-stage change detection over stored fingerprints. */
module FileTracking {

  type Path = string

  /** A stored fingerprint. Checksums are compared, never inverted, so any injective stand-in will do. */
  datatype Print<Sum> = Print(mtime: int, size: nat, sum: Sum)

  /** What the disk says about a file: its stat, and the checksum its content would give. */
  datatype Stat<Sum> = Stat(mtime: int, size: nat, sum: Sum)

  datatype Verdict = New | Modified | Unchanged

  datatype FileDiff = FileDiff(added: seq<Path>, modified: seq<Path>, deleted: seq<Path>, same: seq<Path>)

  predicate SameStat<Sum>(p: Print<Sum>, s: Stat<Sum>) {
    p.mtime == s.mtime && p.size == s.size
  }

  /** The two-stage test: equal mtime and size settle it, otherwise the checksums decide. */
  function TwoStage<Sum(==)>(stored: map<Path, Print<Sum>>, p: Path, s: Stat<Sum>): Verdict {
    if p !in stored then New
    else if SameStat(stored[p], s) || stored[p].sum == s.sum then Unchanged
    else Modified
  }

  /** What comparing checksums alone would say. */
  function ByChecksum<Sum(==)>(stored: map<Path, Print<Sum>>, p: Path, s: Stat<Sum>): Verdict {
    if p !in stored then New else if stored[p].sum == s.sum then Unchanged else Modified
  }

  /** The fingerprint after a diff: only drifted mtime and size are rewritten. */
  function Refreshed<Sum(==)>(stored: map<Path, Print<Sum>>, p: Path, s: Stat<Sum>): map<Path, Print<Sum>> {
    if p in stored && !SameStat(stored[p], s) && stored[p].sum == s.sum
    then stored[p := Print(s.mtime, s.size, s.sum)]
    else stored
  }

  /** Equal mtime and size mean equal content. */
  predicate HonestAt<Sum(==)>(stored: map<Path, Print<Sum>>, p: Path, s: Stat<Sum>) {
    p in stored && SameStat(stored[p], s) ==> stored[p].sum == s.sum
  }

  /** Refreshing drifted stats keeps every checksum and the clock honest. */
  lemma RefreshedKeepsHonest<Sum>(stored: map<Path, Print<Sum>>, p: Path, s: Stat<Sum>, q: Path, t: Stat<Sum>)
    requires HonestAt(stored, q, t) && (q == p ==> s == t)
    ensures Refreshed(stored, p, s).Keys == stored.Keys
    ensures q in stored ==> Refreshed(stored, p, s)[q].sum == stored[q].sum
    ensures HonestAt(Refreshed(stored, p, s), q, t)
  {
  }

  function Select<Sum(==)>(
    ps: seq<Path>, stored: map<Path, Print<Sum>>, disk: map<Path, Stat<Sum>>, v: Verdict): seq<Path>
    requires forall p | p in ps :: p in disk
  {
    if ps == [] then []
    else
      var rest := Select(ps[..|ps| - 1], stored, disk, v);
      var p := ps[|ps| - 1];
      if TwoStage(stored, p, disk[p]) == v then rest + [p] else rest
  }

  lemma {:induction false} SelectMembers<Sum>(
    ps: seq<Path>, stored: map<Path, Print<Sum>>, disk: map<Path, Stat<Sum>>, v: Verdict, p: Path)
    requires forall q | q in ps :: q in disk
    ensures p in Select(ps, stored, disk, v) <==> p in ps && TwoStage(stored, p, disk[p]) == v
  {
    if ps == [] {
    } else {
      var init := ps[..|ps| - 1];
      assert ps == init + [ps[|ps| - 1]];
      SelectMembers(init, stored, disk, v, p);
    }
  }

  /** The three lists of a diff share out the discovered files: each occurrence is in exactly one. */
  lemma {:induction false} DiffSharesOutFiles<Sum>(
    ps: seq<Path>, stored: map<Path, Print<Sum>>, disk: map<Path, Stat<Sum>>)
    requires forall p | p in ps :: p in disk
    ensures multiset(ps) == multiset(Select(ps, stored, disk, New)) + multiset(Select(ps, stored, disk, Modified))
                          + multiset(Select(ps, stored, disk, Unchanged))
  {
    if ps == [] {
    } else {
      var init := ps[..|ps| - 1];
      assert ps == init + [ps[|ps| - 1]];
      DiffSharesOutFiles(init, stored, disk);
    }
  }

  ghost predicate ListedByChecksum<Sum>(
    ps: seq<Path>, stored: map<Path, Print<Sum>>, disk: map<Path, Stat<Sum>>, v: Verdict)
    requires forall p | p in ps :: p in disk
  {
    forall p | p in ps :: p in Select(ps, stored, disk, v) <==> ByChecksum(stored, p, disk[p]) == v
  }

  /** The new, modified and unchanged files are those comparing checksums gives exactly on an honest clock. */
  lemma DiffIsChecksumComparison<Sum>(ps: seq<Path>, stored: map<Path, Print<Sum>>, disk: map<Path, Stat<Sum>>)
    requires forall p | p in ps :: p in disk
    ensures (forall v :: ListedByChecksum(ps, stored, disk, v))
       <==> (forall p | p in ps :: HonestAt(stored, p, disk[p]))
  {
    forall v, p
      ensures p in Select(ps, stored, disk, v) <==> p in ps && TwoStage(stored, p, disk[p]) == v
    {
      SelectMembers(ps, stored, disk, v, p);
    }
    if forall v :: ListedByChecksum(ps, stored, disk, v) {
      forall p | p in ps
        ensures HonestAt(stored, p, disk[p])
      {
        assert ListedByChecksum(ps, stored, disk, TwoStage(stored, p, disk[p]));
      }
    }
  }

  function RefreshAll<Sum(==)>(
    ps: seq<Path>, stored: map<Path, Print<Sum>>, now: map<Path, Print<Sum>>, disk: map<Path, Stat<Sum>>)
    : map<Path, Print<Sum>>
    requires forall p | p in ps :: p in disk
  {
    if ps == [] then now
    else
      var rest := RefreshAll(ps[..|ps| - 1], stored, now, disk);
      var p := ps[|ps| - 1];
      if p in stored && !SameStat(stored[p], disk[p]) && stored[p].sum == disk[p].sum
      then rest[p := Print(disk[p].mtime, disk[p].size, disk[p].sum)]
      else rest
  }

  /** After a diff every unchanged file has a fingerprint that matches its stat or its checksum; keys stay. */
  lemma {:induction false} RefreshAllMeaning<Sum>(
    ps: seq<Path>, stored: map<Path, Print<Sum>>, disk: map<Path, Stat<Sum>>, p: Path)
    requires forall q | q in ps :: q in disk
    ensures RefreshAll(ps, stored, stored, disk).Keys == stored.Keys
    ensures p in stored ==> RefreshAll(ps, stored, stored, disk)[p].sum == stored[p].sum
    ensures p in stored && p in ps && TwoStage(stored, p, disk[p]) == Unchanged ==>
              SameStat(RefreshAll(ps, stored, stored, disk)[p], disk[p])
    ensures p !in ps && p in stored ==> RefreshAll(ps, stored, stored, disk)[p] == stored[p]
  {
    if ps == [] {
    } else {
      var init := ps[..|ps| - 1];
      assert ps == init + [ps[|ps| - 1]];
      RefreshAllMeaning(init, stored, disk, p);
      if p !in init && p in stored {
        assert RefreshAll(init, stored, stored, disk)[p] == stored[p];
      }
    }
  }

  class FileTracker<Sum(==)> {
    var stored: map<Path, Print<Sum>>

    constructor ()
      ensures stored == map[]
    {
      stored := map[];
    }

    /** Classify the discovered files, refreshing stats that drifted without a content change. */
    method Diff(discovered: seq<Path>, disk: map<Path, Stat<Sum>>) returns (diff: FileDiff)
      requires forall p | p in discovered :: p in disk
      modifies this
      ensures diff.added == Select(discovered, old(stored), disk, New)
      ensures diff.modified == Select(discovered, old(stored), disk, Modified)
      ensures diff.same == Select(discovered, old(stored), disk, Unchanged)
      ensures forall p :: p in diff.deleted <==> p in old(stored) && p !in discovered
      ensures forall i, j | 0 <= i < j < |diff.deleted| :: diff.deleted[i] != diff.deleted[j]
      ensures stored == RefreshAll(discovered, old(stored), old(stored), disk)
    {
      var loaded := stored;
      var added, modified, deleted, same: seq<Path> := [], [], [], [];
      var seen: set<Path> := {};
      for i := 0 to |discovered|
        invariant seen == set p | p in discovered[..i]
        invariant added == Select(discovered[..i], loaded, disk, New)
        invariant modified == Select(discovered[..i], loaded, disk, Modified)
        invariant same == Select(discovered[..i], loaded, disk, Unchanged)
        invariant stored == RefreshAll(discovered[..i], loaded, loaded, disk)
      {
        var p := discovered[i];
        assert discovered[..i + 1] == discovered[..i] + [p];
        assert discovered[..i + 1][..i] == discovered[..i];
        seen := seen + {p};
        if p !in loaded {
          added := added + [p];
          continue;
        }
        var stat := disk[p];
        if SameStat(loaded[p], stat) {
          same := same + [p];
          continue;
        }
        if stat.sum == loaded[p].sum {
          stored := stored[p := Print(stat.mtime, stat.size, stat.sum)];
          same := same + [p];
        } else {
          modified := modified + [p];
        }
      }
      assert discovered[..|discovered|] == discovered;
      var todo := loaded.Keys;
      while todo != {}
        invariant todo <= loaded.Keys
        invariant forall p :: p in deleted <==> p in loaded && p !in todo && p !in seen
        invariant forall i, j | 0 <= i < j < |deleted| :: deleted[i] != deleted[j]
      {
        var p :| p in todo;
        todo := todo - {p};
        if p !in seen {
          deleted := deleted + [p];
        }
      }
      diff := FileDiff(added, modified, deleted, same);
    }

    /** `save_fingerprint`: insert or replace. */
    method SaveFingerprint(p: Path, value: Print<Sum>)
      modifies this
      ensures stored == old(stored)[p := value]
    {
      stored := stored[p := value];
    }

    method RemoveFingerprint(p: Path)
      modifies this
      ensures stored == old(stored) - {p}
    {
      stored := stored - {p};
    }
  }
}
