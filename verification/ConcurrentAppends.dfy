/** The write-behind stores used by several callers at once: the lock on the map covers the first
    write only, so operations may append their records in another order than they changed memory.
    Every call is two steps, and the steps of all calls interleave in any way. */
module ConcurrentAppends {
  import opened Wrappers
  import opened WriteBehind

  /** `written` lists the records in the order memory took them; `pending` are those of the calls
      that have changed memory and not appended yet. */
  datatype State<R> = State(memory: map<string, R>, written: seq<R>, log: seq<R>, pending: seq<R>)

  /** `Append(k)` is the second step of the k-th call in progress. */
  datatype Action<!R> = Change(op: Op<R>) | Append(k: nat)

  function Step<R>(idOf: R -> string, s: State<R>, a: Action<R>): State<R> {
    match a
    case Change(op) =>
      var record := op(s.memory);
      if record.None? then s
      else State(Written(idOf, s.memory, record), s.written + [record.value], s.log, s.pending + [record.value])
    case Append(k) =>
      if k >= |s.pending| then s
      else s.(log := s.log + [s.pending[k]], pending := s.pending[..k] + s.pending[k + 1..])
  }

  /** A store opened on `log` after the steps `actions`. */
  function Run<R>(idOf: R -> string, log: seq<R>, actions: seq<Action<R>>): State<R> {
    if actions == [] then State(Replay(idOf, log), [], log, [])
    else Step(idOf, Run(idOf, log, actions[..|actions| - 1]), actions[|actions| - 1])
  }

  /** The calls in progress finish, in the given order. */
  function AppendAll<R>(idOf: R -> string, s: State<R>, order: seq<nat>): State<R>
    decreases |order|
  {
    if order == [] then s else AppendAll(idOf, Step(idOf, s, Append(order[0])), order[1..])
  }

  lemma RunSteps<R>(idOf: R -> string, log: seq<R>, actions: seq<Action<R>>, a: Action<R>)
    ensures Run(idOf, log, actions + [a]) == Step(idOf, Run(idOf, log, actions), a)
  {
    assert (actions + [a])[..|actions|] == actions;
  }

  // ---------------------------------------------------------------- one run

  /** The log is the old one and a rearrangement of what memory took, up to the calls in progress. */
  ghost predicate Rearranges<R>(idOf: R -> string, log: seq<R>, s: State<R>) {
    && s.memory == Replay(idOf, log + s.written)
    && log <= s.log && multiset(s.written) == multiset(s.log[|log|..]) + multiset(s.pending)
  }

  lemma ChangeRearranges<R>(idOf: R -> string, log: seq<R>, s: State<R>, op: Op<R>)
    requires Rearranges(idOf, log, s)
    ensures Rearranges(idOf, log, Step(idOf, s, Change(op)))
  {
    hide Replay;
    if op(s.memory).Some? {
      var record := op(s.memory).value;
      ReplayAppend(idOf, log + s.written, record);
      assert log + (s.written + [record]) == log + s.written + [record];
    }
  }

  lemma AppendRearranges<R>(idOf: R -> string, log: seq<R>, s: State<R>, k: nat)
    requires Rearranges(idOf, log, s)
    ensures Rearranges(idOf, log, Step(idOf, s, Append(k)))
  {
    hide Replay;
    if k < |s.pending| {
      OneLess(s.pending, k);
      assert (s.log + [s.pending[k]])[|log|..] == s.log[|log|..] + [s.pending[k]];
    }
  }

  lemma OneLess<R>(pending: seq<R>, k: nat)
    requires k < |pending|
    ensures multiset(pending) == multiset(pending[..k] + pending[k + 1..]) + multiset{pending[k]}
  {
    assert pending == pending[..k] + [pending[k]] + pending[k + 1..];
  }

  lemma {:induction false} LogIsARearrangement<R>(idOf: R -> string, log: seq<R>, actions: seq<Action<R>>)
    ensures Rearranges(idOf, log, Run(idOf, log, actions))
  {
    if actions == [] {
      assert log + [] == log;
    } else {
      hide Rearranges, Step;
      var front, a := actions[..|actions| - 1], actions[|actions| - 1];
      LogIsARearrangement(idOf, log, front);
      match a
      case Change(op) => ChangeRearranges(idOf, log, Run(idOf, log, front), op);
      case Append(k) => AppendRearranges(idOf, log, Run(idOf, log, front), k);
    }
  }

  /** At rest, the log replays to memory exactly when the record of every id that memory took last
      is also the one appended last. */
  lemma RestAgreesExactlyWhen<R>(idOf: R -> string, log: seq<R>, actions: seq<Action<R>>)
    requires Run(idOf, log, actions).pending == []
    ensures
      var s := Run(idOf, log, actions);
      && log <= s.log
      && (Replay(idOf, s.log) == s.memory <==>
            forall id :: LastOf(idOf, s.log[|log|..], id) == LastOf(idOf, s.written, id))
  {
    hide Run, Replay;
    var s := Run(idOf, log, actions);
    LogIsARearrangement(idOf, log, actions);
    assert s.log == log + s.log[|log|..];
    RearrangedAppendsAgreeExactlyWhen(idOf, log, s.written, s.log[|log|..]);
  }

  // ---------------------------------------------------------------- every way to finish

  /** A call changes a record while another call, yet to append, has written that record
      differently. */
  ghost predicate Conflicts<R>(idOf: R -> string, s: State<R>, a: Action<R>) {
    && a.Change? && a.op(s.memory).Some?
    && exists k | 0 <= k < |s.pending| ::
         idOf(s.pending[k]) == idOf(a.op(s.memory).value) && s.pending[k] != a.op(s.memory).value
  }

  ghost predicate NothingConflicts<R>(idOf: R -> string, log: seq<R>, actions: seq<Action<R>>) {
    forall i | 0 <= i < |actions| :: !Conflicts(idOf, Run(idOf, log, actions[..i]), actions[i])
  }

  /** Whenever the calls in progress finish, and in whatever order, the log replays to memory. */
  ghost predicate AlwaysReplaysToMemory<R>(idOf: R -> string, log: seq<R>, actions: seq<Action<R>>) {
    forall i, order | 0 <= i <= |actions| ::
      ReplaysToMemoryAtRest(idOf, AppendAll(idOf, Run(idOf, log, actions[..i]), order))
  }

  ghost predicate ReplaysToMemoryAtRest<R>(idOf: R -> string, s: State<R>) {
    s.pending == [] ==> Replay(idOf, s.log) == s.memory
  }

  /** Of every id, memory holds what each call in progress with it will append, or the logged
      record if there is none. */
  ghost predicate Agrees<R>(idOf: R -> string, s: State<R>) {
    && (forall k | 0 <= k < |s.pending| :: Lookup(s.memory, idOf(s.pending[k])) == Some(s.pending[k]))
    && (forall id | Lookup(s.memory, id) != Lookup(Replay(idOf, s.log), id) ::
          exists k | 0 <= k < |s.pending| :: idOf(s.pending[k]) == id)
  }

  lemma ChangeKeepsAgreement<R>(idOf: R -> string, s: State<R>, a: Action<R>)
    requires Agrees(idOf, s) && !Conflicts(idOf, s, a) && a.Change?
    ensures Agrees(idOf, Step(idOf, s, a))
  {
    hide Replay;
    if a.op(s.memory).Some? {
      var record, t := a.op(s.memory).value, Step(idOf, s, a);
      assert t.pending[|s.pending|] == record;
      forall id | Lookup(t.memory, id) != Lookup(Replay(idOf, t.log), id)
        ensures exists k | 0 <= k < |t.pending| :: idOf(t.pending[k]) == id
      {
        if id != idOf(record) {
          var k :| 0 <= k < |s.pending| && idOf(s.pending[k]) == id;
          assert t.pending[k] == s.pending[k];
        }
      }
    }
  }

  lemma AppendKeepsAgreement<R>(idOf: R -> string, s: State<R>, k: nat)
    requires Agrees(idOf, s)
    ensures Agrees(idOf, Step(idOf, s, Append(k)))
  {
    hide Replay;
    if k < |s.pending| {
      var record, t := s.pending[k], Step(idOf, s, Append(k));
      ReplayAppend(idOf, s.log, record);
      forall id | Lookup(t.memory, id) != Lookup(Replay(idOf, t.log), id)
        ensures exists j | 0 <= j < |t.pending| :: idOf(t.pending[j]) == id
      {
        var j :| 0 <= j < |s.pending| && idOf(s.pending[j]) == id;
        assert j != k;
        assert s.pending[j] == t.pending[if j < k then j else j - 1];
      }
    }
  }

  lemma {:induction false} RunAgrees<R>(idOf: R -> string, log: seq<R>, actions: seq<Action<R>>, i: nat)
    requires NothingConflicts(idOf, log, actions) && i <= |actions|
    ensures Agrees(idOf, Run(idOf, log, actions[..i]))
  {
    if i > 0 {
      hide Agrees, Step, Conflicts;
      RunAgrees(idOf, log, actions, i - 1);
      assert actions[..i][..i - 1] == actions[..i - 1];
      if actions[i - 1].Change? {
        ChangeKeepsAgreement(idOf, Run(idOf, log, actions[..i - 1]), actions[i - 1]);
      } else {
        AppendKeepsAgreement(idOf, Run(idOf, log, actions[..i - 1]), actions[i - 1].k);
      }
    }
  }

  lemma {:induction false} FinishingAgrees<R>(idOf: R -> string, s: State<R>, order: seq<nat>)
    requires Agrees(idOf, s)
    ensures Agrees(idOf, AppendAll(idOf, s, order))
    decreases |order|
  {
    if order != [] {
      hide Agrees, Step;
      AppendKeepsAgreement(idOf, s, order[0]);
      FinishingAgrees(idOf, Step(idOf, s, Append(order[0])), order[1..]);
    }
  }

  lemma AgreementAtRest<R>(idOf: R -> string, s: State<R>)
    requires Agrees(idOf, s)
    ensures ReplaysToMemoryAtRest(idOf, s)
  {
    hide Replay;
    EqualByLookup(Replay(idOf, s.log), s.memory);
  }

  /** The calls in progress can finish with any one of them last. */
  lemma {:induction false} FinishLast<R>(idOf: R -> string, s: State<R>, k: nat) returns (order: seq<nat>)
    requires k < |s.pending|
    ensures
      var t := AppendAll(idOf, s, order);
      t.pending == [] && t.memory == s.memory && t.log != [] && t.log[|t.log| - 1] == s.pending[k]
    decreases |s.pending|
  {
    if |s.pending| == 1 {
      order := [k];
      assert order[1..] == [];
    } else {
      var j := if k == 0 then 1 else 0;
      var rest := FinishLast(idOf, Step(idOf, s, Append(j)), if k == 0 then 0 else k - 1);
      order := [j] + rest;
      assert order[1..] == rest;
    }
  }

  /** After a conflict, the two calls can append in the wrong order. */
  lemma ConflictsShow<R>(idOf: R -> string, s: State<R>, a: Action<R>) returns (order: seq<nat>)
    requires Conflicts(idOf, s, a)
    ensures !ReplaysToMemoryAtRest(idOf, AppendAll(idOf, Step(idOf, s, a), order))
  {
    hide AppendAll;
    var record, t := a.op(s.memory).value, Step(idOf, s, a);
    var k :| 0 <= k < |s.pending| && idOf(s.pending[k]) == idOf(record) && s.pending[k] != record;
    assert t.pending[k] == s.pending[k] && t.memory[idOf(record)] == record;
    order := FinishLast(idOf, t, k);
    var u := AppendAll(idOf, t, order);
    assert Replay(idOf, u.log)[idOf(record)] == s.pending[k];
  }

  /** Whatever the interleaving, reopening gives memory -- after every step, and in whatever order
      the calls then in progress append -- if and only if no call changes a record while another
      call with a different version of it has yet to append. */
  lemma ReplaysExactlyWhenNothingConflicts<R>(idOf: R -> string, log: seq<R>, actions: seq<Action<R>>)
    ensures AlwaysReplaysToMemory(idOf, log, actions) <==> NothingConflicts(idOf, log, actions)
  {
    hide Conflicts, Agrees, Step, ReplaysToMemoryAtRest, AppendAll;
    if NothingConflicts(idOf, log, actions) {
      forall i, order: seq<nat> | 0 <= i <= |actions|
        ensures ReplaysToMemoryAtRest(idOf, AppendAll(idOf, Run(idOf, log, actions[..i]), order))
      {
        RunAgrees(idOf, log, actions, i);
        FinishingAgrees(idOf, Run(idOf, log, actions[..i]), order);
        AgreementAtRest(idOf, AppendAll(idOf, Run(idOf, log, actions[..i]), order));
      }
    } else {
      var i :| 0 <= i < |actions| && Conflicts(idOf, Run(idOf, log, actions[..i]), actions[i]);
      var order := ConflictsShow(idOf, Run(idOf, log, actions[..i]), actions[i]);
      assert actions[..i + 1][..i] == actions[..i];
      assert Run(idOf, log, actions[..i + 1]) == Step(idOf, Run(idOf, log, actions[..i]), actions[i]);
    }
  }

  /** In particular if the calls in progress together never write one id. */
  ghost predicate NoneOverlap<R>(idOf: R -> string, log: seq<R>, actions: seq<Action<R>>) {
    forall i, j, k | 0 <= i <= |actions| && 0 <= j < k < |Run(idOf, log, actions[..i]).pending| ::
      idOf(Run(idOf, log, actions[..i]).pending[j]) != idOf(Run(idOf, log, actions[..i]).pending[k])
  }

  lemma WithoutOverlapNothingConflicts<R>(idOf: R -> string, log: seq<R>, actions: seq<Action<R>>)
    requires NoneOverlap(idOf, log, actions)
    ensures NothingConflicts(idOf, log, actions)
  {
    hide Step, Conflicts;
    forall i | 0 <= i < |actions|
      ensures !Conflicts(idOf, Run(idOf, log, actions[..i]), actions[i])
    {
      assert actions[..i + 1][..i] == actions[..i];
      assert Run(idOf, log, actions[..i + 1]) == Step(idOf, Run(idOf, log, actions[..i]), actions[i]);
      ConflictsOverlap(idOf, Run(idOf, log, actions[..i]), actions[i]);
    }
  }

  lemma ConflictsOverlap<R>(idOf: R -> string, s: State<R>, a: Action<R>)
    ensures Conflicts(idOf, s, a) ==>
      var pending := Step(idOf, s, a).pending;
      exists j, k :: 0 <= j < k < |pending| && idOf(pending[j]) == idOf(pending[k])
  {
    if Conflicts(idOf, s, a) {
      var k :| 0 <= k < |s.pending| && idOf(s.pending[k]) == idOf(a.op(s.memory).value);
      var pending := Step(idOf, s, a).pending;
      assert pending[k] == s.pending[k] && pending[|s.pending|] == a.op(s.memory).value;
    }
  }
}
