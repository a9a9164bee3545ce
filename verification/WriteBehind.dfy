/** The JSONL stores' common discipline: every accepted operation first changes a map in memory
    and then appends the changed record to a log; opening a log replays it, last record wins. */
module WriteBehind {
  import opened Wrappers

  function Replay<R>(idOf: R -> string, log: seq<R>): map<string, R> {
    if log == [] then map[]
    else Replay(idOf, log[..|log| - 1])[idOf(log[|log| - 1]) := log[|log| - 1]]
  }

  /** Every record is stored under its own id. */
  ghost predicate WellKeyed<R>(idOf: R -> string, records: map<string, R>) {
    forall id | id in records :: idOf(records[id]) == id
  }

  /** An operation as the record it writes on a given map, if it writes one. */
  type Op<!R> = map<string, R> -> Option<R>

  function Written<R>(idOf: R -> string, records: map<string, R>, record: Option<R>): map<string, R> {
    if record.Some? then records[idOf(record.value) := record.value] else records
  }

  /** The first write: the map. */
  function MemoryAfter<R>(idOf: R -> string, records: map<string, R>, ops: seq<Op<R>>): map<string, R>
    decreases |ops|
  {
    if ops == [] then records else MemoryAfter(idOf, Written(idOf, records, ops[0](records)), ops[1..])
  }

  /** The second write: the log. */
  function LogOf<R>(idOf: R -> string, records: map<string, R>, ops: seq<Op<R>>): seq<R>
    decreases |ops|
  {
    if ops == [] then []
    else
      var written := ops[0](records);
      (if written.Some? then [written.value] else []) + LogOf(idOf, Written(idOf, records, written), ops[1..])
  }

  /** Each record of the log is a legal successor of the previous record with its id. */
  ghost predicate LegalLog<R>(idOf: R -> string, succeeds: (R, R) -> bool, log: seq<R>) {
    forall j | 0 <= j < |log| && idOf(log[j]) in Replay(idOf, log[..j]) ::
      succeeds(Replay(idOf, log[..j])[idOf(log[j])], log[j])
  }

  /** The operation only writes legal successors. */
  ghost predicate Respects<R(!new)>(idOf: R -> string, succeeds: (R, R) -> bool, op: Op<R>) {
    forall records: map<string, R> | WellKeyed(idOf, records) && op(records).Some? ::
      idOf(op(records).value) in records ==> succeeds(records[idOf(op(records).value)], op(records).value)
  }

  lemma ReplayAppend<R>(idOf: R -> string, log: seq<R>, record: R)
    ensures Replay(idOf, log + [record]) == Replay(idOf, log)[idOf(record) := record]
  {
    assert (log + [record])[..|log|] == log;
  }

  lemma {:induction false} ReplayIsWellKeyed<R>(idOf: R -> string, log: seq<R>)
    ensures WellKeyed(idOf, Replay(idOf, log))
  {
    if log != [] {
      ReplayIsWellKeyed(idOf, log[..|log| - 1]);
    }
  }

  lemma LegalLogAppend<R>(idOf: R -> string, succeeds: (R, R) -> bool, log: seq<R>, record: R)
    requires LegalLog(idOf, succeeds, log)
    requires idOf(record) in Replay(idOf, log) ==> succeeds(Replay(idOf, log)[idOf(record)], record)
    ensures LegalLog(idOf, succeeds, log + [record])
  {
    var longer := log + [record];
    forall j | 0 <= j < |longer| && idOf(longer[j]) in Replay(idOf, longer[..j])
      ensures succeeds(Replay(idOf, longer[..j])[idOf(longer[j])], longer[j])
    {
      assert longer[..j] == log[..j];
      if j == |log| {
        assert log[..j] == log;
      }
    }
  }

  /** After any serialised operations on a store opened on any log, reopening the file gives the
      memory map back; and a legal log -- in particular the empty one -- stays legal. */
  lemma {:induction false} ReplayRefinesMemory<R(!new)>(idOf: R -> string, succeeds: (R, R) -> bool, log: seq<R>,
                                                        ops: seq<Op<R>>)
    ensures Replay(idOf, log + LogOf(idOf, Replay(idOf, log), ops)) == MemoryAfter(idOf, Replay(idOf, log), ops)
    ensures LegalLog(idOf, succeeds, log) && (forall k | 0 <= k < |ops| :: Respects(idOf, succeeds, ops[k])) ==>
        LegalLog(idOf, succeeds, log + LogOf(idOf, Replay(idOf, log), ops))
    decreases |ops|
  {
    hide LegalLog, Replay, Respects;
    if ops == [] {
      assert log + [] == log;
    } else {
      var records := Replay(idOf, log);
      var written := ops[0](records);
      var step := if written.Some? then [written.value] else [];
      if written.Some? {
        ReplayAppend(idOf, log, written.value);
        if LegalLog(idOf, succeeds, log) && Respects(idOf, succeeds, ops[0]) {
          WritesLegally(idOf, succeeds, log, ops[0]);
          LegalLogAppend(idOf, succeeds, log, written.value);
        }
      } else {
        assert log + step == log;
      }
      ReplayRefinesMemory(idOf, succeeds, log + step, ops[1..]);
      assert log + (step + LogOf(idOf, Written(idOf, records, written), ops[1..])) ==
             log + step + LogOf(idOf, Written(idOf, records, written), ops[1..]);
    }
  }

  lemma WritesLegally<R(!new)>(idOf: R -> string, succeeds: (R, R) -> bool, log: seq<R>, op: Op<R>)
    requires Respects(idOf, succeeds, op) && op(Replay(idOf, log)).Some?
    ensures
      var record := op(Replay(idOf, log)).value;
      idOf(record) in Replay(idOf, log) ==> succeeds(Replay(idOf, log)[idOf(record)], record)
  {
    ReplayIsWellKeyed(idOf, log);
  }

  lemma {:induction false} MemoryAfterAppend<R>(idOf: R -> string, records: map<string, R>, ops: seq<Op<R>>, op: Op<R>)
    ensures
      var before := MemoryAfter(idOf, records, ops);
      MemoryAfter(idOf, records, ops + [op]) == Written(idOf, before, op(before))
    decreases |ops|
  {
    if ops == [] {
      assert ([] + [op])[1..] == [];
    } else {
      assert (ops + [op])[1..] == ops[1..] + [op];
      MemoryAfterAppend(idOf, Written(idOf, records, ops[0](records)), ops[1..], op);
    }
  }

  /** A crash between the two writes of the last operation: the file reopens to the map before
      that operation, which differs from the lost memory at most at the record it was writing. */
  lemma CrashLosesOnlyTheLastOperation<R(!new)>(idOf: R -> string, log: seq<R>, ops: seq<Op<R>>, last: Op<R>)
    ensures
      var atCrash := MemoryAfter(idOf, Replay(idOf, log), ops + [last]);
      var reopened := Replay(idOf, log + LogOf(idOf, Replay(idOf, log), ops));
      && reopened == MemoryAfter(idOf, Replay(idOf, log), ops)
      && atCrash == Written(idOf, reopened, last(reopened))
  {
    ReplayRefinesMemory(idOf, (_, _) => true, log, ops);
    MemoryAfterAppend(idOf, Replay(idOf, log), ops, last);
  }

  /** The last record of an id in a log. */
  function LastOf<R>(idOf: R -> string, log: seq<R>, id: string): Option<R> {
    if log == [] then None
    else if idOf(log[|log| - 1]) == id then Some(log[|log| - 1])
    else LastOf(idOf, log[..|log| - 1], id)
  }

  function Lookup<R>(records: map<string, R>, id: string): Option<R> {
    if id in records then Some(records[id]) else None
  }

  lemma EqualByLookup<R>(a: map<string, R>, b: map<string, R>)
    ensures a == b <==> forall id :: Lookup(a, id) == Lookup(b, id)
  {
    if forall id :: Lookup(a, id) == Lookup(b, id) {
      forall id
        ensures id in a <==> id in b
        ensures id in a && id in b ==> a[id] == b[id]
      {
        assert Lookup(a, id) == Lookup(b, id);
      }
    }
  }

  lemma {:induction false} ReplayHoldsLast<R>(idOf: R -> string, log: seq<R>, id: string)
    ensures LastOf(idOf, log, id) == Lookup(Replay(idOf, log), id)
  {
    if log != [] {
      ReplayHoldsLast(idOf, log[..|log| - 1], id);
    }
  }

  lemma {:induction false} LastOfConcat<R>(idOf: R -> string, a: seq<R>, b: seq<R>, id: string)
    ensures LastOf(idOf, a + b, id) == if LastOf(idOf, b, id).Some? then LastOf(idOf, b, id) else LastOf(idOf, a, id)
  {
    if b == [] {
      assert a + b == a;
    } else {
      assert (a + b)[..|a + b| - 1] == a + b[..|b| - 1];
      LastOfConcat(idOf, a, b[..|b| - 1], id);
    }
  }

  lemma {:induction false} LastOfFinds<R>(idOf: R -> string, log: seq<R>, id: string)
    ensures LastOf(idOf, log, id).Some? <==> exists r | r in log :: idOf(r) == id
  {
    if log != [] {
      LastOfFinds(idOf, log[..|log| - 1], id);
      assert log == log[..|log| - 1] + [log[|log| - 1]];
    }
  }

  lemma RearrangedAt<R>(idOf: R -> string, log: seq<R>, written: seq<R>, appended: seq<R>, id: string)
    requires multiset(written) == multiset(appended)
    ensures Lookup(Replay(idOf, log + appended), id) == Lookup(Replay(idOf, log + written), id) <==>
            LastOf(idOf, appended, id) == LastOf(idOf, written, id)
  {
    hide Replay, LastOf, Lookup;
    SameIds(idOf, written, appended, id);
    LastOfConcat(idOf, log, appended, id);
    LastOfConcat(idOf, log, written, id);
    ReplayHoldsLast(idOf, log + appended, id);
    ReplayHoldsLast(idOf, log + written, id);
  }

  /** No lock spans the two writes, so concurrent operations may append in another order than they
      changed memory. Whatever the rearrangement, reopening still gives memory exactly when the last
      record of every id is the same in both orders. */
  lemma RearrangedAppendsAgreeExactlyWhen<R>(idOf: R -> string, log: seq<R>, written: seq<R>, appended: seq<R>)
    requires multiset(written) == multiset(appended)
    ensures Replay(idOf, log + appended) == Replay(idOf, log + written) <==>
            forall id :: LastOf(idOf, appended, id) == LastOf(idOf, written, id)
  {
    hide Replay, LastOf, Lookup;
    var a, b := Replay(idOf, log + appended), Replay(idOf, log + written);
    EqualByLookup(a, b);
    if a == b {
      forall id
        ensures LastOf(idOf, appended, id) == LastOf(idOf, written, id)
      {
        RearrangedAt(idOf, log, written, appended, id);
      }
    } else {
      var id :| Lookup(a, id) != Lookup(b, id);
      RearrangedAt(idOf, log, written, appended, id);
    }
  }

  lemma SameIds<R>(idOf: R -> string, a: seq<R>, b: seq<R>, id: string)
    requires multiset(a) == multiset(b)
    ensures LastOf(idOf, a, id).Some? <==> LastOf(idOf, b, id).Some?
  {
    LastOfFinds(idOf, a, id);
    LastOfFinds(idOf, b, id);
    assert forall r :: r in a <==> r in multiset(a);
    assert forall r :: r in b <==> r in multiset(b);
  }

  /** Two appends swapped: harmless exactly when they wrote under different ids or wrote the same
      record; otherwise reopening gives the older one. */
  lemma SwappedAppendsAgreeExactlyWhen<R>(idOf: R -> string, log: seq<R>, first: R, second: R)
    ensures Replay(idOf, log + [first] + [second]) == Replay(idOf, log + [second] + [first]) <==>
            idOf(first) != idOf(second) || first == second
    ensures Replay(idOf, log + [second] + [first])[idOf(first)] == first
  {
    hide Replay;
    ReplayAppend(idOf, log, first);
    ReplayAppend(idOf, log, second);
    ReplayAppend(idOf, log + [first], second);
    ReplayAppend(idOf, log + [second], first);
    assert Replay(idOf, log + [first] + [second])[idOf(second)] == second;
  }

  /** The replayed record of an id is one of its log records, and none follows it. */
  lemma {:induction false} ReplayedIsLast<R>(idOf: R -> string, log: seq<R>, i: nat, j: nat)
    requires i < j <= |log|
    ensures idOf(log[i]) in Replay(idOf, log[..j])
    ensures exists k | i <= k < j :: idOf(log[k]) == idOf(log[i]) && Replay(idOf, log[..j])[idOf(log[i])] == log[k]
    decreases j
  {
    assert log[..j][..j - 1] == log[..j - 1];
    if idOf(log[j - 1]) != idOf(log[i]) {
      ReplayedIsLast(idOf, log, i, j - 1);
    }
  }
}
