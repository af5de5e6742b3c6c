/** Store operations, what they do to one record, and why replaying an interrupted sequence is harmless. */
module DeltaOps {
  import opened DeltaTypes
  import opened Wrappers

  /** A point upsert, a point delete, or the deletion of every record a test calls stale. */
  datatype Op =
    | Upsert(key: Key, payload: Row)
    | Delete(key: Key)
    | Sweep(stale: (Key, Row) -> bool)

  ghost function Apply(op: Op, s: Store): Store {
    match op
    case Upsert(k, payload) => s[k := payload]
    case Delete(k) => s - {k}
    case Sweep(stale) => map k | k in s && !stale(k, s[k]) :: s[k]
  }

  ghost function Run(ops: seq<Op>, s: Store): Store {
    if ops == [] then s else Run(ops[1..], Apply(ops[0], s))
  }

  /** How many of the operations change the store when they come to run. */
  ghost function Changes(ops: seq<Op>, s: Store): nat {
    if ops == [] then 0
    else
      var init := ops[..|ops| - 1];
      Changes(init, s) + if Run(ops, s) == Run(init, s) then 0 else 1
  }

  lemma ChangesNext(ops: seq<Op>, i: nat, s: Store)
    requires i < |ops|
    ensures Changes(ops[..i + 1], s) == Changes(ops[..i], s) + if Run(ops[..i + 1], s) == Run(ops[..i], s) then 0 else 1
  {
    assert ops[..i + 1][..i] == ops[..i];
  }

  /** What an operation does to the record at one key; it looks at no other record. */
  ghost function ApplyCell(op: Op, k: Key, x: Option<Row>): Option<Row> {
    match op
    case Upsert(k', payload) => if k' == k then Some(payload) else x
    case Delete(k') => if k' == k then None else x
    case Sweep(stale) => if x.Some? && stale(k, x.value) then None else x
  }

  ghost function RunCell(ops: seq<Op>, k: Key, x: Option<Row>): Option<Row> {
    if ops == [] then x else RunCell(ops[1..], k, ApplyCell(ops[0], k, x))
  }

  lemma {:induction false} RunIsLocal(ops: seq<Op>, s: Store, k: Key)
    ensures Cell(Run(ops, s), k) == RunCell(ops, k, Cell(s, k))
  {
    if ops == [] {
    } else {
      RunIsLocal(ops[1..], Apply(ops[0], s), k);
    }
  }

  lemma {:induction false} RunConcat(a: seq<Op>, b: seq<Op>, s: Store)
    ensures Run(a + b, s) == Run(b, Run(a, s))
  {
    if a == [] {
      assert a + b == b;
    } else {
      assert (a + b)[1..] == a[1..] + b;
      RunConcat(a[1..], b, Apply(a[0], s));
    }
  }

  lemma {:induction false} RunCellConcat(a: seq<Op>, b: seq<Op>, k: Key, x: Option<Row>)
    ensures RunCell(a + b, k, x) == RunCell(b, k, RunCell(a, k, x))
  {
    if a == [] {
      assert a + b == b;
    } else {
      assert (a + b)[1..] == a[1..] + b;
      RunCellConcat(a[1..], b, k, ApplyCell(a[0], k, x));
    }
  }

  ghost predicate IsPoint(op: Op, k: Key) {
    !op.Sweep? && op.key == k
  }

  /** Some operation fixes the record at k whatever it was before. */
  ghost predicate Pins(ops: seq<Op>, k: Key) {
    exists op :: op in ops && IsPoint(op, k)
  }

  lemma {:induction false} PinnedCellsForget(ops: seq<Op>, k: Key, x: Option<Row>, y: Option<Row>)
    requires Pins(ops, k)
    ensures RunCell(ops, k, x) == RunCell(ops, k, y)
  {
    var i :| 0 <= i < |ops| && IsPoint(ops[i], k);
    var before, after := ops[..i], ops[i + 1..];
    assert ops == before + ([ops[i]] + after);
    RunCellConcat(before, [ops[i]] + after, k, x);
    RunCellConcat(before, [ops[i]] + after, k, y);
    assert ([ops[i]] + after)[1..] == after;
  }

  /** Without such an operation a record is either kept or swept, and what is absent stays absent. */
  lemma {:induction false} UnpinnedCells(ops: seq<Op>, k: Key, x: Option<Row>)
    requires !Pins(ops, k)
    ensures RunCell(ops, k, x) in {x, None}
    ensures RunCell(ops, k, None) == None
  {
    if ops == [] {
    } else {
      assert !Pins(ops[1..], k);
      assert ops[0] in ops && !IsPoint(ops[0], k);
      UnpinnedCells(ops[1..], k, ApplyCell(ops[0], k, x));
      UnpinnedCells(ops[1..], k, None);
    }
  }

  /** Replaying a whole sequence over the result of one of its prefixes gives what one run gives. */
  lemma ReplayAbsorbsPrefix(ops: seq<Op>, n: nat, k: Key, x: Option<Row>)
    requires n <= |ops|
    ensures RunCell(ops, k, RunCell(ops[..n], k, x)) == RunCell(ops, k, x)
  {
    var y := RunCell(ops[..n], k, x);
    if Pins(ops, k) {
      PinnedCellsForget(ops, k, x, y);
    } else {
      assert !Pins(ops[..n], k);
      UnpinnedCells(ops[..n], k, x);
      UnpinnedCells(ops, k, x);
      if y == None {
        assert ops == ops[..n] + ops[n..];
        RunCellConcat(ops[..n], ops[n..], k, x);
        assert !Pins(ops[n..], k);
        UnpinnedCells(ops[n..], k, x);
      }
    }
  }

  /**
   * A store an interrupted run of `ops` can leave: every record is what some prefix of the operations
   * made of it. The prefixes may differ between records, as they do when a batch buffers its inserts.
   */
  ghost predicate Interrupted(ops: seq<Op>, s: Store, s': Store) {
    forall k :: InterruptedCell(ops, k, Cell(s, k), Cell(s', k))
  }

  ghost predicate InterruptedCell(ops: seq<Op>, k: Key, x: Option<Row>, y: Option<Row>) {
    exists n: nat :: PrefixMakes(ops, k, x, y, n)
  }

  ghost predicate PrefixMakes(ops: seq<Op>, k: Key, x: Option<Row>, y: Option<Row>, n: nat) {
    n <= |ops| && y == RunCell(ops[..n], k, x)
  }

  /** Any crash followed by a full replay equals one uninterrupted run. */
  lemma ReplayConverges(ops: seq<Op>, s: Store, s': Store)
    requires Interrupted(ops, s, s')
    ensures Run(ops, s') == Run(ops, s)
  {
    forall k
      ensures Cell(Run(ops, s'), k) == Cell(Run(ops, s), k)
    {
      assert InterruptedCell(ops, k, Cell(s, k), Cell(s', k));
      var n: nat :| PrefixMakes(ops, k, Cell(s, k), Cell(s', k), n);
      RunIsLocal(ops, s, k);
      RunIsLocal(ops, s', k);
      ReplayAbsorbsPrefix(ops, n, k, Cell(s, k));
    }
    SameCellsSameStore(Run(ops, s'), Run(ops, s));
  }

  /** Running a sequence twice is running it once. */
  lemma RunIdempotent(ops: seq<Op>, s: Store)
    ensures Run(ops, Run(ops, s)) == Run(ops, s)
  {
    PrefixInterrupts(ops, |ops|, s);
    assert ops[..|ops|] == ops;
    ReplayConverges(ops, s, Run(ops, s));
  }

  lemma PrefixInterrupts(ops: seq<Op>, n: nat, s: Store)
    requires n <= |ops|
    ensures Interrupted(ops, s, Run(ops[..n], s))
  {
    forall k
      ensures InterruptedCell(ops, k, Cell(s, k), Cell(Run(ops[..n], s), k))
    {
      RunIsLocal(ops[..n], s, k);
      assert PrefixMakes(ops, k, Cell(s, k), Cell(Run(ops[..n], s), k), n);
    }
  }

  /** A crash inside the second of two sequences is a crash inside their concatenation. */
  lemma InterruptedAfter(a: seq<Op>, b: seq<Op>, s: Store, s': Store)
    requires Interrupted(b, Run(a, s), s')
    ensures Interrupted(a + b, s, s')
  {
    forall k
      ensures InterruptedCell(a + b, k, Cell(s, k), Cell(s', k))
    {
      assert InterruptedCell(b, k, Cell(Run(a, s), k), Cell(s', k));
      var n: nat :| PrefixMakes(b, k, Cell(Run(a, s), k), Cell(s', k), n);
      RunIsLocal(a, s, k);
      RunCellConcat(a, b[..n], k, Cell(s, k));
      assert (a + b)[..|a| + n] == a + b[..n];
      assert PrefixMakes(a + b, k, Cell(s, k), Cell(s', k), |a| + n);
    }
  }

  /** A crash inside a sequence is a crash inside any longer sequence that starts with it. */
  lemma InterruptedBefore(a: seq<Op>, b: seq<Op>, s: Store, s': Store)
    requires Interrupted(a, s, s')
    ensures Interrupted(a + b, s, s')
  {
    forall k
      ensures InterruptedCell(a + b, k, Cell(s, k), Cell(s', k))
    {
      assert InterruptedCell(a, k, Cell(s, k), Cell(s', k));
      var n: nat :| PrefixMakes(a, k, Cell(s, k), Cell(s', k), n);
      assert (a + b)[..n] == a[..n];
      assert PrefixMakes(a + b, k, Cell(s, k), Cell(s', k), n);
    }
  }
}
