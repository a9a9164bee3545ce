/** Journals with strictly increasing ids: the run journal and the kernel event store share
    this discipline (crates/agent-runtime/src/run_journal.rs,
    crates/agentos-kernel/src/event_store.rs). An event is its id and its content. */
module EventLog {
  import opened Wrappers

  datatype Event<+T> = Event(id: nat, content: T)

  datatype AppendError = AlreadyExists(id: nat) | NonMonotonicId(last: nat, next: nat)

  /** A cursor is the id of the last event seen. */
  type Cursor = Option<nat>

  ghost predicate Increasing<T>(events: seq<Event<T>>) {
    forall i, j | 0 <= i < j < |events| :: events[i].id < events[j].id
  }

  function IdsOf<T>(events: seq<Event<T>>): set<nat> {
    set i | 0 <= i < |events| :: events[i].id
  }

  /** What `append` answers, and when it accepts. */
  function AppendResult<T>(events: seq<Event<T>>, e: Event<T>): Result<nat, AppendError> {
    if e.id in IdsOf(events) then Err(AlreadyExists(e.id))
    else if events != [] && e.id <= events[|events| - 1].id then Err(NonMonotonicId(events[|events| - 1].id, e.id))
    else Ok(e.id)
  }

  /** The filter behind `events_after`. */
  function EventsAfter<T>(events: seq<Event<T>>, cursor: Cursor): seq<Event<T>> {
    if events == [] then []
    else (if cursor.None? || events[0].id > cursor.value then [events[0]] else []) + EventsAfter(events[1..], cursor)
  }

  function LatestCursor<T>(events: seq<Event<T>>): Cursor {
    if events == [] then None else Some(events[|events| - 1].id)
  }

  // ---------------------------------------------------------------- the in-memory journal

  class MemoryJournal<T> {
    var events: seq<Event<T>>
    var ids: set<nat>

    /** Ids strictly increase, and the id set is exactly the ids stored. */
    ghost predicate Valid()
      reads this
    {
      Increasing(events) && ids == IdsOf(events)
    }

    constructor ()
      ensures Valid() && events == []
    {
      events := [];
      ids := {};
    }

    method Append(e: Event<T>) returns (result: Result<nat, AppendError>)
      requires Valid()
      modifies this
      ensures Valid()
      ensures result == AppendResult(old(events), e)
      ensures events == if result.Ok? then old(events) + [e] else old(events)
      ensures
        result ==
        if exists k | 0 <= k < |old(events)| :: old(events)[k].id == e.id then Err(AlreadyExists(e.id))
        else if old(events) != [] && e.id < old(events)[|old(events)| - 1].id
        then Err(NonMonotonicId(old(events)[|old(events)| - 1].id, e.id))
        else Ok(e.id)
    {
      if e.id in ids {
        return Err(AlreadyExists(e.id));
      }
      if events != [] && e.id <= events[|events| - 1].id {
        return Err(NonMonotonicId(events[|events| - 1].id, e.id));
      }
      IdsGrow(events, e);
      ids := ids + {e.id};
      events := events + [e];
      return Ok(e.id);
    }

    /** The kernel store's `append_idempotent`: a known id is answered, not stored. */
    method AppendIdempotent(e: Event<T>) returns (result: Result<nat, AppendError>)
      requires Valid()
      modifies this
      ensures Valid()
      ensures result == if e.id in IdsOf(old(events)) then Ok(e.id) else AppendResult(old(events), e)
      ensures events == if result.Ok? && e.id !in IdsOf(old(events)) then old(events) + [e] else old(events)
    {
      if e.id in ids {
        return Ok(e.id);
      }
      result := Append(e);
    }
  }

  lemma IdsGrow<T>(events: seq<Event<T>>, e: Event<T>)
    ensures IdsOf(events + [e]) == IdsOf(events) + {e.id}
  {
    var longer := events + [e];
    assert forall i | 0 <= i < |events| :: longer[i] == events[i];
    assert longer[|events|] == e;
    forall id
      ensures id in IdsOf(longer) <==> id in IdsOf(events) + {e.id}
    {
      if id in IdsOf(events) {
        var i :| 0 <= i < |events| && events[i].id == id;
        assert longer[i].id == id;
      }
      if id in IdsOf(longer) {
        var i :| 0 <= i < |longer| && longer[i].id == id;
      }
    }
  }

  // ---------------------------------------------------------------- cursors

  /** Nothing after a cursor at or past every id. */
  lemma {:induction false} NothingAfter<T>(events: seq<Event<T>>, cursor: Cursor)
    requires cursor.Some? && forall i | 0 <= i < |events| :: events[i].id <= cursor.value
    ensures EventsAfter(events, cursor) == []
  {
    if events != [] {
      NothingAfter(events[1..], cursor);
    }
  }

  lemma {:induction false} EverythingAfter<T>(events: seq<Event<T>>, cursor: Cursor)
    requires cursor.None? || forall i | 0 <= i < |events| :: events[i].id > cursor.value
    ensures EventsAfter(events, cursor) == events
  {
    if events != [] {
      EverythingAfter(events[1..], cursor);
      assert events == [events[0]] + events[1..];
    }
  }

  lemma FilterUnfold<T>(events: seq<Event<T>>, cursor: Cursor)
    ensures EventsAfter(events, cursor) ==
      if events == [] then []
      else (if cursor.None? || events[0].id > cursor.value then [events[0]] else []) + EventsAfter(events[1..], cursor)
  {
  }

  lemma {:induction false} FilterSplits<T>(a: seq<Event<T>>, b: seq<Event<T>>, cursor: Cursor)
    ensures EventsAfter(a + b, cursor) == EventsAfter(a, cursor) + EventsAfter(b, cursor)
  {
    hide EventsAfter;
    FilterUnfold(a, cursor);
    FilterUnfold(a + b, cursor);
    if a == [] {
      assert a + b == b;
      assert [] + EventsAfter(b, cursor) == EventsAfter(b, cursor);
    } else {
      assert (a + b)[1..] == a[1..] + b;
      FilterSplits(a[1..], b, cursor);
      var first := if cursor.None? || a[0].id > cursor.value then [a[0]] else [];
      assert first + (EventsAfter(a[1..], cursor) + EventsAfter(b, cursor)) ==
             first + EventsAfter(a[1..], cursor) + EventsAfter(b, cursor);
    }
  }

  lemma NothingOfThePast<T>(events: seq<Event<T>>, k: nat)
    requires Increasing(events) && 0 < k <= |events|
    ensures EventsAfter(events[..k], Some(events[k - 1].id)) == []
  {
    hide EventsAfter;
    forall i | 0 <= i < k
      ensures events[..k][i].id <= events[k - 1].id
    {
      assert i < k - 1 ==> events[i].id < events[k - 1].id;
    }
    NothingAfter(events[..k], Some(events[k - 1].id));
  }

  lemma EverythingOfTheFuture<T>(events: seq<Event<T>>, k: nat)
    requires Increasing(events) && 0 < k <= |events|
    ensures EventsAfter(events[k..], Some(events[k - 1].id)) == events[k..]
  {
    hide EventsAfter;
    forall i | 0 <= i < |events| - k
      ensures events[k..][i].id > events[k - 1].id
    {
      assert events[k - 1].id < events[k + i].id;
    }
    EverythingAfter(events[k..], Some(events[k - 1].id));
  }

  /** In a journal, the filter is a suffix: the events after the cursor's own event. */
  lemma CursorIsASuffix<T>(events: seq<Event<T>>, k: nat)
    requires Increasing(events) && k <= |events|
    ensures EventsAfter(events, LatestCursor(events[..k])) == events[k..]
  {
    hide EventsAfter, Increasing;
    var cursor := LatestCursor(events[..k]);
    if k == 0 {
      EverythingAfter(events, cursor);
      assert events[0..] == events;
    } else {
      NothingOfThePast(events, k);
      EverythingOfTheFuture(events, k);
      FilterSplits(events[..k], events[k..], cursor);
      assert events == events[..k] + events[k..];
      assert [] + events[k..] == events[k..];
    }
  }

  // ---------------------------------------------------------------- consumers

  /** A writer and a polling consumer, in any interleaving. */
  datatype Action<+T> = Write(event: Event<T>) | Poll

  datatype Session<+T> = Session(events: seq<Event<T>>, received: seq<Event<T>>, cursor: Cursor)

  function SessionStep<T>(s: Session<T>, a: Action<T>): Session<T> {
    match a
    case Write(e) => if AppendResult(s.events, e).Ok? then s.(events := s.events + [e]) else s
    case Poll =>
      var batch := EventsAfter(s.events, s.cursor);
      s.(received := s.received + batch, cursor := if batch == [] then s.cursor else LatestCursor(batch))
  }

  function RunSession<T>(actions: seq<Action<T>>): Session<T> {
    if actions == [] then Session([], [], None)
    else SessionStep(RunSession(actions[..|actions| - 1]), actions[|actions| - 1])
  }

  /** The consumer has received exactly a prefix of the journal, and its cursor marks the end. */
  ghost predicate InStep<T>(s: Session<T>) {
    && Increasing(s.events)
    && s.received <= s.events
    && s.cursor == LatestCursor(s.received)
  }

  lemma PollCatchesUp<T>(s: Session<T>)
    requires InStep(s)
    ensures InStep(SessionStep(s, Poll)) && SessionStep(s, Poll).received == s.events
  {
    hide EventsAfter, Increasing;
    var k := |s.received|;
    assert s.events[..k] == s.received;
    CursorIsASuffix(s.events, k);
    assert s.received + s.events[k..] == s.events;
    if k == |s.events| {
      assert s.events[k..] == [];
    }
  }

  lemma WriteKeepsStep<T>(s: Session<T>, e: Event<T>)
    requires InStep(s)
    ensures InStep(SessionStep(s, Write(e)))
  {
  }

  /** Exactly once, in order: at every moment a consumer that polls from its last seen id has
      received a prefix of the journal, and right after a poll it has received all of it. */
  lemma {:induction false} EveryEventOnceInOrder<T>(actions: seq<Action<T>>)
    ensures InStep(RunSession(actions))
    ensures actions != [] && actions[|actions| - 1].Poll? ==> RunSession(actions).received == RunSession(actions).events
  {
    if actions != [] {
      EveryEventOnceInOrder(actions[..|actions| - 1]);
      var s := RunSession(actions[..|actions| - 1]);
      match actions[|actions| - 1] {
        case Poll => PollCatchesUp(s);
        case Write(e) => WriteKeepsStep(s, e);
      }
    }
  }

  // ---------------------------------------------------------------- cursors across a crash

  lemma {:induction false} FilterIsNoLonger<T>(events: seq<Event<T>>, cursor: Cursor)
    ensures |EventsAfter(events, cursor)| <= |events|
  {
    if events != [] {
      FilterIsNoLonger(events[1..], cursor);
    }
  }

  /** The next polls after a reopen give a consumer every event it has not received. */
  ghost predicate CursorSurvives<T>(received: seq<Event<T>>, reopened: seq<Event<T>>, more: seq<Event<T>>) {
    var unseen := if |received| <= |reopened| then reopened[|received|..] + more else more;
    EventsAfter(reopened + more, LatestCursor(received)) == unseen
  }

  /** A consumer that received what the reopened journal still holds keeps its place. */
  lemma CursorSurvivesWhenNothingIsLost<T>(received: seq<Event<T>>, reopened: seq<Event<T>>, more: seq<Event<T>>)
    requires Increasing(reopened + more) && received <= reopened
    ensures CursorSurvives(received, reopened, more)
  {
    hide EventsAfter, Increasing;
    var events := reopened + more;
    CursorIsASuffix(events, |received|);
    assert events[..|received|] == received;
    assert events[|received|..] == reopened[|received|..] + more;
  }

  /** A crash between the two writes loses the last event, which a consumer may have polled from
      memory already. Its cursor is then ahead of the reopened journal, and it receives everything
      appended afterwards exactly when the first of it has an id above the lost one. */
  lemma CursorAheadSurvivesExactlyWhen<T>(reopened: seq<Event<T>>, lost: Event<T>, more: seq<Event<T>>)
    requires Increasing(reopened + [lost]) && Increasing(reopened + more)
    ensures CursorSurvives(reopened + [lost], reopened, more) <==> more == [] || more[0].id > lost.id
  {
    var received := reopened + [lost];
    var cursor := Some(lost.id);
    assert LatestCursor(received) == cursor;
    forall i | 0 <= i < |reopened|
      ensures reopened[i].id <= lost.id
    {
      assert received[i].id < received[|reopened|].id;
    }
    NothingAfter(reopened, cursor);
    FilterSplits(reopened, more, cursor);
    assert [] + EventsAfter(more, cursor) == EventsAfter(more, cursor);
    if more != [] && more[0].id > lost.id {
      forall i | 0 <= i < |more|
        ensures more[i].id > lost.id
      {
        var whole := reopened + more;
        assert i > 0 ==> whole[|reopened|].id < whole[|reopened| + i].id;
      }
      EverythingAfter(more, cursor);
    } else if more != [] {
      FilterIsNoLonger(more[1..], cursor);
    }
  }

  // ---------------------------------------------------------------- reopening

  /** Reopening a run journal: `append` for every line, stopping at the first error. */
  function Reopen<T>(log: seq<Event<T>>): Result<seq<Event<T>>, AppendError> {
    if log == [] then Ok([])
    else
      var front := Reopen(log[..|log| - 1]);
      if front.Err? then front
      else
        var result := AppendResult(front.value, log[|log| - 1]);
        if result.Ok? then Ok(front.value + [log[|log| - 1]]) else Err(result.error)
  }

  /** Reopening a kernel event store: `append_idempotent` for every line. */
  function ReopenIdempotent<T>(log: seq<Event<T>>): Result<seq<Event<T>>, AppendError> {
    if log == [] then Ok([])
    else
      var front := ReopenIdempotent(log[..|log| - 1]);
      var e := log[|log| - 1];
      if front.Err? then front
      else if e.id in IdsOf(front.value) then front
      else
        var result := AppendResult(front.value, e);
        if result.Ok? then Ok(front.value + [e]) else Err(result.error)
  }

  lemma AppendKeepsIncreasing<T>(events: seq<Event<T>>, e: Event<T>)
    requires Increasing(events)
    ensures AppendResult(events, e).Ok? <==> Increasing(events + [e])
  {
    var longer := events + [e];
    assert longer[|events|] == e;
    assert forall i | 0 <= i < |events| :: longer[i] == events[i];
    assert Increasing(longer) ==> forall i | 0 <= i < |events| :: longer[i].id < longer[|events|].id;
  }

  lemma IncreasingFront<T>(log: seq<Event<T>>)
    requires log != [] && Increasing(log)
    ensures Increasing(log[..|log| - 1])
  {
  }

  /** A run journal reopens exactly when its log is strictly increasing -- as serialised appends
      write it -- and then with the very same events. */
  lemma {:induction false} ReopenSucceedsExactlyOnIncreasingLogs<T>(log: seq<Event<T>>)
    ensures Reopen(log).Ok? <==> Increasing(log)
    ensures Reopen(log).Ok? ==> Reopen(log).value == log
  {
    hide Increasing, AppendResult;
    if log == [] {
      NothingDecreases<T>();
    } else {
      var n := |log| - 1;
      ReopenSucceedsExactlyOnIncreasingLogs(log[..n]);
      assert log == log[..n] + [log[n]];
      if Increasing(log) {
        IncreasingFront(log);
      }
      if Increasing(log[..n]) {
        AppendKeepsIncreasing(log[..n], log[n]);
      }
    }
  }

  lemma NothingDecreases<T>()
    ensures Increasing<T>([])
  {
  }

  /** The log without the lines that repeat an id. */
  function FirstOccurrences<T>(log: seq<Event<T>>): seq<Event<T>> {
    if log == [] then []
    else
      FirstOccurrences(log[..|log| - 1]) + if log[|log| - 1].id in IdsOf(log[..|log| - 1]) then [] else [log[|log| - 1]]
  }

  lemma {:induction false} FirstOccurrencesKeepIds<T>(log: seq<Event<T>>)
    ensures IdsOf(FirstOccurrences(log)) == IdsOf(log)
  {
    if log != [] {
      var n := |log| - 1;
      FirstOccurrencesKeepIds(log[..n]);
      assert log == log[..n] + [log[n]];
      IdsGrow(log[..n], log[n]);
      IdsGrow(FirstOccurrences(log[..n]), log[n]);
      if log[n].id in IdsOf(log[..n]) {
        assert FirstOccurrences(log) == FirstOccurrences(log[..n]);
      }
    }
  }

  /** The kernel store forgives repeated lines and nothing else: it reopens exactly when the
      first occurrences are strictly increasing, and then holds exactly them. */
  lemma {:induction false} IdempotentReopenKeepsFirstOccurrences<T>(log: seq<Event<T>>)
    ensures ReopenIdempotent(log).Ok? <==> Increasing(FirstOccurrences(log))
    ensures ReopenIdempotent(log).Ok? ==> ReopenIdempotent(log).value == FirstOccurrences(log)
  {
    if log != [] {
      var n := |log| - 1;
      var front := FirstOccurrences(log[..n]);
      IdempotentReopenKeepsFirstOccurrences(log[..n]);
      FirstOccurrencesKeepIds(log[..n]);
      if log[n].id in IdsOf(log[..n]) {
        assert FirstOccurrences(log) == front;
      } else if Increasing(front) {
        AppendKeepsIncreasing(front, log[n]);
      } else {
        var all := FirstOccurrences(log);
        var i, j :| 0 <= i < j < |front| && !(front[i].id < front[j].id);
        assert all[i] == front[i] && all[j] == front[j];
      }
    }
  }

  // ---------------------------------------------------------------- the JSONL journals

  lemma {:induction false} DistinctLinesAreFirst<T>(log: seq<Event<T>>)
    requires forall i, j | 0 <= i < j < |log| :: log[i].id != log[j].id
    ensures FirstOccurrences(log) == log
  {
    if log != [] {
      var n := |log| - 1;
      DistinctLinesAreFirst(log[..n]);
      assert log == log[..n] + [log[n]];
    }
  }

  /** A log that appends wrote reopens, strictly or idempotently, with the same events. */
  lemma IncreasingLogReopens<T>(log: seq<Event<T>>)
    requires Increasing(log)
    ensures Reopen(log) == Ok(log) && ReopenIdempotent(log) == Ok(log)
  {
    hide Reopen, ReopenIdempotent, FirstOccurrences;
    ReopenSucceedsExactlyOnIncreasingLogs(log);
    IdempotentReopenKeepsFirstOccurrences(log);
    DistinctLinesAreFirst(log);
  }

  /** The last of increasing events is the last of any rearrangement of them that increases. */
  lemma SameLast<T>(events: seq<Event<T>>, log: seq<Event<T>>)
    requires Increasing(events) && Increasing(log) && multiset(log) == multiset(events) && events != []
    ensures log != [] && log[|log| - 1] == events[|events| - 1]
  {
    var last := events[|events| - 1];
    assert last in multiset(events) && last in log;
    var k :| 0 <= k < |log| && log[k] == last;
    assert log[|log| - 1] in multiset(log) && log[|log| - 1] in events;
    var i :| 0 <= i < |events| && events[i] == log[|log| - 1];
    assert last.id <= log[|log| - 1].id && events[i].id <= last.id;
  }

  lemma LastRemoved<T>(events: seq<Event<T>>)
    requires events != []
    ensures events == events[..|events| - 1] + [events[|events| - 1]]
    ensures multiset(events[..|events| - 1]) == multiset(events) - multiset{events[|events| - 1]}
  {
  }

  lemma {:induction false} IncreasingOrderIsUnique<T>(events: seq<Event<T>>, log: seq<Event<T>>)
    requires Increasing(events) && Increasing(log) && multiset(log) == multiset(events)
    ensures log == events
  {
    assert |log| == |multiset(log)| == |multiset(events)| == |events|;
    if events != [] {
      hide Increasing;
      var n, m := |events| - 1, |log| - 1;
      SameLast(events, log);
      IncreasingFront(events);
      IncreasingFront(log);
      LastRemoved(events);
      LastRemoved(log);
      IncreasingOrderIsUnique(events[..n], log[..m]);
    }
  }

  lemma SameIdSameEvent<T>(events: seq<Event<T>>, x: Event<T>, y: Event<T>)
    requires Increasing(events) && x in events && y in events
    ensures x.id == y.id ==> x == y
  {
    var a :| 0 <= a < |events| && events[a] == x;
    var b :| 0 <= b < |events| && events[b] == y;
    assert x.id == y.id ==> a == b;
  }

  lemma {:induction false} OnceInJournal<T>(events: seq<Event<T>>, e: Event<T>)
    requires Increasing(events)
    ensures multiset(events)[e] <= 1
  {
    if events != [] {
      var n := |events| - 1;
      assert events == events[..n] + [events[n]];
      OnceInJournal(events[..n], e);
      assert events[n] !in events[..n];
    }
  }

  lemma TwiceInLog<T>(log: seq<Event<T>>, i: nat, j: nat)
    requires i < j < |log|
    ensures log[i] == log[j] ==> multiset(log)[log[i]] >= 2
  {
    assert log == log[..j] + [log[j]] + log[j + 1..];
    assert log[i] in log[..j];
  }

  /** Distinct ids stay distinct in every rearrangement. */
  lemma RearrangedIdsAreDistinct<T>(events: seq<Event<T>>, log: seq<Event<T>>, i: nat, j: nat)
    requires Increasing(events) && multiset(log) == multiset(events) && i < j < |log|
    ensures log[i].id != log[j].id
  {
    hide Increasing;
    assert log[i] in multiset(events) && log[j] in multiset(events);
    SameIdSameEvent(events, log[i], log[j]);
    OnceInJournal(events, log[i]);
    TwiceInLog(log, i, j);
  }

  /** The lock that orders events in memory does not cover the file, so concurrent appends may land
      in another order. The file can then not be opened again, as run journal or as kernel store:
      a rearrangement of a journal reopens if and only if it is the journal itself. */
  lemma RearrangedLogReopensExactlyWhen<T>(events: seq<Event<T>>, log: seq<Event<T>>)
    requires Increasing(events) && multiset(log) == multiset(events)
    ensures Reopen(log).Ok? <==> log == events
    ensures ReopenIdempotent(log).Ok? <==> log == events
  {
    hide Reopen, ReopenIdempotent, FirstOccurrences;
    ReopenSucceedsExactlyOnIncreasingLogs(log);
    IdempotentReopenKeepsFirstOccurrences(log);
    forall i, j | 0 <= i < j < |log|
      ensures log[i].id != log[j].id
    {
      RearrangedIdsAreDistinct(events, log, i, j);
    }
    DistinctLinesAreFirst(log);
    if Increasing(log) {
      IncreasingOrderIsUnique(events, log);
    }
  }

  /** Both JSONL forms: memory first, then the log line. */
  class JsonlJournal<T> {
    const memory: MemoryJournal<T>
    var log: seq<Event<T>>

    ghost predicate Valid()
      reads this, memory
    {
      memory.Valid() && log == memory.events
    }

    constructor ()
      ensures Valid() && fresh(memory) && log == []
    {
      memory := new MemoryJournal<T>();
      log := [];
    }

    /** After any serialised appends the log reopens to the events in memory. */
    method Append(e: Event<T>) returns (result: Result<nat, AppendError>)
      requires Valid()
      modifies this, memory
      ensures Valid() && Reopen(log) == Ok(memory.events) && ReopenIdempotent(log) == Ok(memory.events)
      ensures result == AppendResult(old(memory.events), e)
      ensures log == if result.Ok? then old(log) + [e] else old(log)
    {
      hide Reopen, ReopenIdempotent;
      result := memory.Append(e);
      if result.Ok? {
        log := log + [e];
      }
      IncreasingLogReopens(log);
    }

    /** The kernel store's idempotent append looks the id up among the stored events first. */
    method AppendIdempotent(e: Event<T>) returns (result: Result<nat, AppendError>)
      requires Valid()
      modifies this, memory
      ensures Valid()
      ensures e.id in IdsOf(old(memory.events)) ==> result == Ok(e.id) && log == old(log)
      ensures e.id !in IdsOf(old(memory.events)) ==>
        result == AppendResult(old(memory.events), e) && log == if result.Ok? then old(log) + [e] else old(log)
    {
      if exists i | 0 <= i < |memory.events| :: memory.events[i].id == e.id {
        return Ok(e.id);
      }
      result := Append(e);
    }
  }
}
