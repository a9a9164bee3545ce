/** The lease queue over the run store, one call at a time (crates/agent-runtime/src/run_queue.rs).
    Clock readings are parameters. Interleavings of several workers are in RunQueueProtocol. */
module RunQueue {
  import opened Wrappers
  import opened Ordering
  import opened RunStore

  datatype AgentRunLease = AgentRunLease(runId: string, leasedAt: int, expiresAt: int)

  /** The queued runs as (created_at, run_id) pairs. */
  ghost function QueueKeys(records: Records): (keys: set<Key>)
    ensures forall k :: k in keys <==>
      k.id in records && records[k.id].status == Queued && k.time == records[k.id].createdAt
  {
    set id | id in records && records[id].status == Queued :: Key(records[id].createdAt, id)
  }

  ghost function IdsOf(keys: seq<Key>): seq<string> {
    seq(|keys|, i requires 0 <= i < |keys| => keys[i].id)
  }

  /** The queue an observer sees: queued runs by creation time, then id. */
  ghost function QueueOrder(records: Records): seq<string> {
    IdsOf(InOrder(QueueKeys(records)))
  }

  predicate Expired(record: AgentRunRecord, timeout: nat, now: int) {
    record.status == Running && record.updatedAt + timeout <= now
  }

  function ExpiredIds(records: Records, timeout: nat, now: int): set<string> {
    set id | id in records && Expired(records[id], timeout, now)
  }

  /** Exactly the expired runs requeued, everything else untouched. */
  function RecoveredIn(records: Records, expired: set<string>, stamps: string -> int): Records {
    map id | id in records ::
      if id in expired then records[id].(status := Queued, updatedAt := stamps(id)) else records[id]
  }

  /** Leases of the running runs, in key order. */
  ghost function LeasesOf(values: seq<AgentRunRecord>, timeout: nat): seq<AgentRunLease> {
    if values == [] then []
    else
      var r := values[|values| - 1];
      LeasesOf(values[..|values| - 1], timeout) +
      if r.status == Running then [AgentRunLease(r.runId, r.updatedAt, r.updatedAt + timeout)] else []
  }

  ghost function ExpiredAmong(listed: seq<AgentRunRecord>, timeout: nat, now: int): set<string> {
    set r | r in listed && Expired(r, timeout, now) :: r.runId
  }

  /** The queue keys of the queued records listed. */
  ghost function QueuedAmong(listed: seq<AgentRunRecord>): set<Key> {
    set r | r in listed && r.status == Queued :: KeyOf(r)
  }

  function KeyOf(r: AgentRunRecord): Key {
    Key(r.createdAt, r.runId)
  }

  /** The queued runs, each once: earlier creation first, equal times by id. */
  ghost predicate IsQueueOf(records: Records, queue: seq<string>) {
    && (forall id :: id in queue <==> id in records && records[id].status == Queued)
    && forall i, j | 0 <= i < j < |queue| ::
         && queue[i] != queue[j] && queue[i] in records && queue[j] in records
         && (records[queue[i]].createdAt < records[queue[j]].createdAt ||
             (records[queue[i]].createdAt == records[queue[j]].createdAt && StringLe(queue[i], queue[j])))
  }

  lemma QueueIsByTimeThenId(records: Records)
    requires WellKeyed(records)
    ensures IsQueueOf(records, QueueOrder(records))
  {
    hide InOrder, StringLe;
    var keys := InOrder(QueueKeys(records));
    InOrderIsSorted(QueueKeys(records));
    assert forall i | 0 <= i < |keys| :: keys[i] in keys;
    forall id
      ensures id in QueueOrder(records) <==> id in records && records[id].status == Queued
    {
      if id in records && records[id].status == Queued {
        var k := Key(records[id].createdAt, id);
        assert k in QueueKeys(records) && k in keys;
        var i :| 0 <= i < |keys| && keys[i] == k;
        assert QueueOrder(records)[i] == id;
      }
    }
    forall i, j | 0 <= i < j < |keys|
      ensures Lt(keys[i], keys[j]) && keys[i] in QueueKeys(records) && keys[j] in QueueKeys(records)
    {
    }
  }

  /** Exactly the running runs last updated a timeout ago or longer are queued again, under stamps of
      their own, and reported, sorted by id. */
  ghost predicate Recovers(before: Records, after: Records, timeout: nat, now: int, stamps: string -> int,
                           recovered: seq<string>)
  {
    && after.Keys == before.Keys
    && (forall id | id in before ::
          after[id] ==
          if before[id].status == Running && before[id].updatedAt + timeout <= now
          then before[id].(status := Queued, updatedAt := stamps(id)) else before[id])
    && (forall id :: id in recovered <==>
          id in before && before[id].status == Running && before[id].updatedAt + timeout <= now)
    && forall i, j | 0 <= i < j < |recovered| :: recovered[i] != recovered[j] && StringLe(recovered[i], recovered[j])
  }

  lemma RecoversExactly(before: Records, timeout: nat, now: int, stamps: string -> int)
    ensures
      var ids := ExpiredIds(before, timeout, now);
      Recovers(before, RecoveredIn(before, ids, stamps), timeout, now, stamps, IdsInOrder(ids))
  {
    hide IdsInOrder, StringLe;
    IdsInOrderAreTheIds(ExpiredIds(before, timeout, now));
    var sorted := IdsInOrder(ExpiredIds(before, timeout, now));
    forall i, j | 0 <= i < j < |sorted|
      ensures sorted[i] != sorted[j] && StringLe(sorted[i], sorted[j])
    {
      assert Lt(Key(0, sorted[i]), Key(0, sorted[j]));
    }
  }

  /** One lease per running run, from its last update on, by increasing id. */
  ghost predicate ListsLeases(records: Records, timeout: nat, leases: seq<AgentRunLease>) {
    && (forall lease :: lease in leases <==>
          && lease.runId in records && records[lease.runId].status == Running
          && lease == AgentRunLease(lease.runId, records[lease.runId].updatedAt,
                                    records[lease.runId].updatedAt + timeout))
    && IncreasingLeases(leases)
  }

  lemma LeasesOfNothing(listed: seq<AgentRunRecord>, timeout: nat)
    ensures LeasesOf(listed[..0], timeout) == []
  {
  }

  lemma LeasesOfPrefix(listed: seq<AgentRunRecord>, i: nat, timeout: nat)
    requires i < |listed|
    ensures LeasesOf(listed[..i + 1], timeout) ==
      LeasesOf(listed[..i], timeout) +
      if listed[i].status == Running
      then [AgentRunLease(listed[i].runId, listed[i].updatedAt, listed[i].updatedAt + timeout)] else []
  {
    assert listed[..i + 1][..i] == listed[..i];
  }

  predicate IncreasingIds(values: seq<AgentRunRecord>) {
    forall i, j | 0 <= i < j < |values| ::
      values[i].runId != values[j].runId && StringLe(values[i].runId, values[j].runId)
  }

  /** A lease of a running record of the listing. */
  ghost predicate IsLeaseIn(values: seq<AgentRunRecord>, timeout: nat, lease: AgentRunLease) {
    exists r | r in values ::
      r.status == Running && lease == AgentRunLease(r.runId, r.updatedAt, r.updatedAt + timeout)
  }

  lemma OneMoreLease(values: seq<AgentRunRecord>, timeout: nat, lease: AgentRunLease)
    requires values != []
    ensures
      var last := values[|values| - 1];
      IsLeaseIn(values, timeout, lease) <==>
      IsLeaseIn(values[..|values| - 1], timeout, lease) ||
      (last.status == Running && lease == AgentRunLease(last.runId, last.updatedAt, last.updatedAt + timeout))
  {
    assert values == values[..|values| - 1] + [values[|values| - 1]];
  }

  ghost predicate IncreasingLeases(leases: seq<AgentRunLease>) {
    forall i, j | 0 <= i < j < |leases| ::
      leases[i].runId != leases[j].runId && StringLe(leases[i].runId, leases[j].runId)
  }

  lemma {:induction false} LeasesOfValues(values: seq<AgentRunRecord>, timeout: nat)
    requires IncreasingIds(values)
    ensures forall lease :: lease in LeasesOf(values, timeout) <==> IsLeaseIn(values, timeout, lease)
    ensures IncreasingLeases(LeasesOf(values, timeout))
  {
    if values == [] {
      assert forall lease :: !IsLeaseIn(values, timeout, lease);
    } else {
      hide StringLe, IsLeaseIn;
      var front := values[..|values| - 1];
      LeasesOfValues(front, timeout);
      forall lease
        ensures lease in LeasesOf(values, timeout) <==> IsLeaseIn(values, timeout, lease)
      {
        OneMoreLease(values, timeout, lease);
      }
      var before := LeasesOf(front, timeout);
      forall i | 0 <= i < |before|
        ensures before[i].runId != values[|values| - 1].runId && StringLe(before[i].runId, values[|values| - 1].runId)
      {
        assert before[i] in before;
        LeaseComesBefore(values, timeout, before[i]);
      }
    }
  }

  lemma LeaseComesBefore(values: seq<AgentRunRecord>, timeout: nat, lease: AgentRunLease)
    requires IncreasingIds(values) && values != [] && IsLeaseIn(values[..|values| - 1], timeout, lease)
    ensures lease.runId != values[|values| - 1].runId && StringLe(lease.runId, values[|values| - 1].runId)
  {
    hide StringLe;
    var front := values[..|values| - 1];
    var r :| r in front && r.runId == lease.runId;
    var k :| 0 <= k < |front| && front[k] == r;
    assert values[k] == r;
  }

  lemma LeasesAreListed(records: Records, timeout: nat)
    requires WellKeyed(records)
    ensures ListsLeases(records, timeout, LeasesOf(Values(records), timeout))
  {
    hide IdsInOrder, StringLe, LeasesOf;
    ValuesAreTheRecords(records);
    IdsInOrderAreTheIds(records.Keys);
    var ids, values := IdsInOrder(records.Keys), Values(records);
    forall i, j | 0 <= i < j < |values|
      ensures values[i].runId != values[j].runId && StringLe(values[i].runId, values[j].runId)
    {
      assert Lt(Key(0, ids[i]), Key(0, ids[j]));
    }
    LeasesOfValues(values, timeout);
    forall lease
      ensures IsLeaseIn(values, timeout, lease) <==>
        && lease.runId in records && records[lease.runId].status == Running
        && lease == AgentRunLease(lease.runId, records[lease.runId].updatedAt,
                                  records[lease.runId].updatedAt + timeout)
    {
      assert lease.runId in records ==> records[lease.runId] in values;
    }
  }

  /** The queued record with the smallest (created_at, run_id). */
  method FirstQueued(listed: seq<AgentRunRecord>) returns (best: Option<AgentRunRecord>)
    ensures best.None? <==> forall r | r in listed :: r.status != Queued
    ensures best.Some? ==> best.value in listed && best.value.status == Queued
    ensures best.Some? ==> forall r | r in listed && r.status == Queued :: Le(KeyOf(best.value), KeyOf(r))
  {
    best := None;
    for i := 0 to |listed|
      invariant best.None? <==> forall r | r in listed[..i] :: r.status != Queued
      invariant best.Some? ==> best.value in listed && best.value.status == Queued
      invariant best.Some? ==> forall r | r in listed[..i] && r.status == Queued :: Le(KeyOf(best.value), KeyOf(r))
    {
      var r := listed[i];
      assert listed[..i + 1] == listed[..i] + [r];
      if r.status == Queued {
        LeTotal(KeyOf(r), KeyOf(r));
        if best.None? {
          best := Some(r);
        } else {
          LeTotal(KeyOf(best.value), KeyOf(r));
          if !Le(KeyOf(best.value), KeyOf(r)) {
            forall x | x in listed[..i] && x.status == Queued
              ensures Le(KeyOf(r), KeyOf(x))
            {
              LeTransitive(KeyOf(r), KeyOf(best.value), KeyOf(x));
            }
            best := Some(r);
          }
        }
      }
    }
    assert listed[..|listed|] == listed;
  }

  class AgentRunQueue {
    const store: MemoryAgentRunStore
    const leaseTimeout: nat

    constructor (store: MemoryAgentRunStore, leaseTimeout: nat)
      ensures this.store == store && this.leaseTimeout == leaseTimeout
    {
      this.store := store;
      this.leaseTimeout := leaseTimeout;
    }

    method Enqueue(record: AgentRunRecord) returns (result: Result<AgentRunRecord, RunStoreError>)
      modifies store
      ensures result == InsertIn(old(store.records), record)
      ensures store.records == Stored(old(store.records), record.runId, result)
      ensures Inserts(old(store.records), store.records, record, result)
    {
      result := store.Insert(record);
    }

    /** Takes the queued run that is first by (created_at, run_id); `now` is the reading of the
        transition and `leasedAt` the later one of the lease. */
    method Lease(now: int, leasedAt: int) returns (lease: Option<AgentRunLease>)
      requires WellKeyed(store.records)
      modifies store
      ensures WellKeyed(store.records)
      ensures IsQueueOf(old(store.records), old(QueueOrder(store.records)))
      ensures lease.None? <==> old(QueueOrder(store.records)) == []
      ensures lease.None? ==> store.records == old(store.records)
      ensures lease.Some? ==>
        var id := old(QueueOrder(store.records))[0];
        && lease == Some(AgentRunLease(id, leasedAt, leasedAt + leaseTimeout))
        && id in old(store.records)
        && store.records == old(store.records)[id := old(store.records)[id].(status := Running, updatedAt := now)]
    {
      var listed := store.List();
      ValuesAreTheRecords(store.records);
      QueueIsByTimeThenId(store.records);
      hide IsQueueOf;
      var best := FirstQueued(listed);
      ghost var keys := QueueKeys(store.records);
      if best.None? {
        NothingQueued(store.records);
        return None;
      }
      var id := best.value.runId;
      ghost var k := KeyOf(best.value);
      forall other | other in keys
        ensures Le(k, other)
      {
        assert store.records[other.id] in listed && KeyOf(store.records[other.id]) == other;
      }
      assert IsLeast(k, keys);
      LeastIsUnique(k, Least(keys), keys);
      var moved := store.Transition(id, Running, now);
      return Some(AgentRunLease(id, leasedAt, leasedAt + leaseTimeout));
    }

    method Ack(runId: string, now: int) returns (result: Result<AgentRunRecord, RunStoreError>)
      modifies store
      ensures result == TransitionIn(old(store.records), runId, Completed, now)
      ensures store.records == Stored(old(store.records), runId, result)
      ensures Moves(old(store.records), store.records, runId, Completed, now, result)
    {
      result := store.Transition(runId, Completed, now);
    }

    method Nack(runId: string, now: int) returns (result: Result<AgentRunRecord, RunStoreError>)
      modifies store
      ensures result == TransitionIn(old(store.records), runId, Queued, now)
      ensures store.records == Stored(old(store.records), runId, result)
      ensures Moves(old(store.records), store.records, runId, Queued, now, result)
    {
      result := store.Transition(runId, Queued, now);
    }

    /** Requeues exactly the running runs whose timeout has passed at `now`, and reports them
        sorted; `stamps` are the clock readings of the single transitions. */
    method RecoverExpiredLeases(now: int, stamps: string -> int) returns (recovered: seq<string>)
      requires WellKeyed(store.records)
      modifies store
      ensures WellKeyed(store.records)
      ensures recovered == IdsInOrder(ExpiredIds(old(store.records), leaseTimeout, now))
      ensures store.records ==
        RecoveredIn(old(store.records), ExpiredIds(old(store.records), leaseTimeout, now), stamps)
      ensures Recovers(old(store.records), store.records, leaseTimeout, now, stamps, recovered)
    {
      hide Recovers;
      hide WellKeyed, ExpiredAmong, RecoveredIn, TransitionIn, Stored, Values;
      ghost var before := store.records;
      var listed := store.List();
      NothingRecovered(before, listed, leaseTimeout, now, stamps);
      var done: set<string> := {};
      for i := 0 to |listed|
        invariant done == ExpiredAmong(listed[..i], leaseTimeout, now)
        invariant store.records == RecoveredIn(before, done, stamps)
      {
        var record := listed[i];
        NextExpired(before, listed, i, leaseTimeout, now);
        if record.status != Running {
          continue;
        }
        if record.updatedAt + leaseTimeout <= now {
          RecoverOne(before, done, stamps, record);
          var moved := store.Transition(record.runId, Queued, stamps(record.runId));
          done := done + {record.runId};
        }
      }
      AllExpired(before, leaseTimeout, now);
      RecoveredStaysKeyed(before, done, stamps);
      RecoversExactly(before, leaseTimeout, now, stamps);
      recovered := SortIds(done);
    }

    /** One lease per running run, in the order of the ids. */
    method ActiveLeases() returns (leases: seq<AgentRunLease>)
      ensures leases == LeasesOf(Values(store.records), leaseTimeout)
      ensures WellKeyed(store.records) ==> ListsLeases(store.records, leaseTimeout, leases)
    {
      hide ListsLeases, WellKeyed, Values, LeasesOf;
      if WellKeyed(store.records) {
        LeasesAreListed(store.records, leaseTimeout);
      }
      var listed := store.List();
      leases := [];
      LeasesOfNothing(listed, leaseTimeout);
      for i := 0 to |listed|
        invariant leases == LeasesOf(listed[..i], leaseTimeout)
      {
        LeasesOfPrefix(listed, i, leaseTimeout);
        var r := listed[i];
        if r.status == Running {
          leases := leases + [AgentRunLease(r.runId, r.updatedAt, r.updatedAt + leaseTimeout)];
        }
      }
      assert listed[..|listed|] == listed;
    }

    method QueuedRunIds() returns (runIds: seq<string>)
      requires WellKeyed(store.records)
      ensures runIds == QueueOrder(store.records)
      ensures IsQueueOf(store.records, runIds)
    {
      QueueIsByTimeThenId(store.records);
      hide WellKeyed, Values, QueuedAmong;
      var listed := store.List();
      var pairs: set<Key> := {};
      NothingQueuedAmong(listed);
      for i := 0 to |listed|
        invariant pairs == QueuedAmong(listed[..i])
      {
        NextQueued(listed, i);
        if listed[i].status == Queued {
          pairs := pairs + {KeyOf(listed[i])};
        }
      }
      QueuedAmongAreTheKeys(store.records);
      var keys := Sort(pairs);
      runIds := seq(|keys|, i requires 0 <= i < |keys| => keys[i].id);
    }
  }

  lemma ValuesAreTheRecords(records: Records)
    requires WellKeyed(records)
    ensures forall r | r in Values(records) :: r.runId in records && records[r.runId] == r
    ensures forall id | id in records :: records[id] in Values(records)
    ensures forall i, j | 0 <= i < j < |Values(records)| :: Values(records)[i] != Values(records)[j]
  {
    IdsInOrderAreTheIds(records.Keys);
    var ids := IdsInOrder(records.Keys);
    var values := Values(records);
    forall id | id in records
      ensures records[id] in values
    {
      assert id in ids;
      var i :| 0 <= i < |ids| && ids[i] == id;
      assert values[i] == records[id];
    }
    forall i, j | 0 <= i < j < |values|
      ensures values[i] != values[j]
    {
      assert ids[i] != ids[j];
    }
  }

  lemma RecoveredStaysKeyed(records: Records, expired: set<string>, stamps: string -> int)
    requires WellKeyed(records)
    ensures WellKeyed(RecoveredIn(records, expired, stamps))
  {
  }

  lemma NothingRecovered(records: Records, listed: seq<AgentRunRecord>, timeout: nat, now: int, stamps: string -> int)
    ensures ExpiredAmong(listed[..0], timeout, now) == {} && RecoveredIn(records, {}, stamps) == records
  {
  }

  /** Requeuing one more running run of the listing. */
  lemma RecoverOne(before: Records, done: set<string>, stamps: string -> int, r: AgentRunRecord)
    requires r.runId in before && before[r.runId] == r && r.runId !in done && r.status == Running
    ensures
      var records := RecoveredIn(before, done, stamps);
      Stored(records, r.runId, TransitionIn(records, r.runId, Queued, stamps(r.runId))) ==
      RecoveredIn(before, done + {r.runId}, stamps)
  {
  }

  /** One more listed record: it is still the stored one, since ids are listed once. */
  lemma NextExpired(records: Records, listed: seq<AgentRunRecord>, i: nat, timeout: nat, now: int)
    requires WellKeyed(records) && listed == Values(records) && i < |listed|
    ensures listed[i].runId in records && records[listed[i].runId] == listed[i]
    ensures listed[i].runId !in ExpiredAmong(listed[..i], timeout, now)
    ensures ExpiredAmong(listed[..i + 1], timeout, now) ==
      ExpiredAmong(listed[..i], timeout, now) + if Expired(listed[i], timeout, now) then {listed[i].runId} else {}
  {
    hide Values, WellKeyed;
    ValuesAreTheRecords(records);
    assert listed[..i + 1] == listed[..i] + [listed[i]];
    assert listed[i] in listed;
    forall r | r in listed[..i]
      ensures r.runId != listed[i].runId
    {
      var j :| 0 <= j < i && listed[j] == r;
      assert records[r.runId] == r && listed[j] != listed[i];
    }
  }

  lemma NothingQueuedAmong(listed: seq<AgentRunRecord>)
    ensures QueuedAmong(listed[..0]) == {}
  {
  }

  lemma NextQueued(listed: seq<AgentRunRecord>, i: nat)
    requires i < |listed|
    ensures QueuedAmong(listed[..i + 1]) ==
      QueuedAmong(listed[..i]) + if listed[i].status == Queued then {KeyOf(listed[i])} else {}
  {
    assert listed[..i + 1] == listed[..i] + [listed[i]];
  }

  lemma QueuedAmongAreTheKeys(records: Records)
    requires WellKeyed(records)
    ensures QueuedAmong(Values(records)[..|Values(records)|]) == QueueKeys(records)
  {
    hide Values;
    ValuesAreTheRecords(records);
    assert Values(records)[..|Values(records)|] == Values(records);
    forall k | k in QueueKeys(records)
      ensures k in QueuedAmong(Values(records))
    {
      assert records[k.id] in Values(records) && KeyOf(records[k.id]) == k;
    }
  }

  lemma AllExpired(records: Records, timeout: nat, now: int)
    requires WellKeyed(records)
    ensures ExpiredAmong(Values(records)[..|Values(records)|], timeout, now) == ExpiredIds(records, timeout, now)
  {
    ValuesAreTheRecords(records);
    assert Values(records)[..|Values(records)|] == Values(records);
  }

  // ---------------------------------------------------------------- a priority queue

  lemma NothingQueued(records: Records)
    requires WellKeyed(records) && forall r | r in Values(records) :: r.status != Queued
    ensures QueueKeys(records) == {}
  {
    ValuesAreTheRecords(records);
    forall id | id in records
      ensures records[id].status != Queued
    {
      assert records[id] in Values(records);
    }
  }

  lemma CutOne(s: seq<Key>, at: nat)
    requires StrictlyIncreasing(s) && at < |s|
    ensures StrictlyIncreasing(s[..at] + s[at + 1..])
    ensures forall x :: x in s[..at] + s[at + 1..] <==> x in s && x != s[at]
  {
    hide Le;
    var cut := s[..at] + s[at + 1..];
    assert forall i | 0 <= i < |cut| :: cut[i] == s[if i < at then i else i + 1];
    forall x | x in s && x != s[at]
      ensures x in cut
    {
      var i :| 0 <= i < |s| && s[i] == x;
      assert cut[if i < at then i else i - 1] == x;
    }
  }

  lemma OrderWithout(keys: set<Key>, k: Key) returns (at: nat)
    requires k in keys
    ensures at < |InOrder(keys)| && InOrder(keys)[at] == k
    ensures InOrder(keys)[..at] + InOrder(keys)[at + 1..] == InOrder(keys - {k})
  {
    hide InOrder;
    InOrderIsSorted(keys);
    var s := InOrder(keys);
    at :| 0 <= at < |s| && s[at] == k;
    CutOne(s, at);
    SortedListingIsInOrder(s[..at] + s[at + 1..], keys - {k});
  }

  /** The records after `Lease` took run `id`. */
  function LeasedIn(records: Records, id: string, now: int): Records
    requires id in records
  {
    records[id := records[id].(status := Running, updatedAt := now)]
  }

  /** Leasing removes the head and keeps the rest in order. */
  lemma LeaseTakesTheHead(records: Records, now: int)
    requires WellKeyed(records) && QueueOrder(records) != []
    ensures
      var id := QueueOrder(records)[0];
      id in records && records[id].status == Queued
        && QueueOrder(LeasedIn(records, id, now)) == QueueOrder(records)[1..]
  {
    var keys := QueueKeys(records);
    var k := Least(keys);
    assert QueueKeys(LeasedIn(records, k.id, now)) == keys - {k};
    assert InOrder(keys) == [k] + InOrder(keys - {k});
  }

  /** Requeueing a running run -- by nack or by recovery -- puts it back at the place its creation
      time gives it, and moves nothing else. */
  lemma RequeueReturnsToItsPlace(records: Records, id: string, stamp: int)
    requires WellKeyed(records) && id in records && records[id].status == Running
    ensures
      var after := QueueOrder(records[id := records[id].(status := Queued, updatedAt := stamp)]);
      exists at | 0 <= at < |after| :: after[at] == id && after[..at] + after[at + 1..] == QueueOrder(records)
  {
    var records' := records[id := records[id].(status := Queued, updatedAt := stamp)];
    var k := Key(records[id].createdAt, id);
    assert QueueKeys(records') - {k} == QueueKeys(records);
    hide InOrder, QueueKeys, IdsOf;
    var at := OrderWithout(QueueKeys(records'), k);
    IdsWithout(InOrder(QueueKeys(records')), at);
    var after := QueueOrder(records');
    assert after[at] == id && after[..at] + after[at + 1..] == QueueOrder(records);
  }

  lemma IdsWithout(keys: seq<Key>, at: nat)
    requires at < |keys|
    ensures
      var ids := IdsOf(keys);
      |ids| == |keys| && ids[at] == keys[at].id && ids[..at] + ids[at + 1..] == IdsOf(keys[..at] + keys[at + 1..])
  {
  }

  /** A nacked lease leaves the queue exactly as it was. */
  lemma NackUndoesLease(records: Records, leasedAt: int, nackedAt: int)
    requires WellKeyed(records) && QueueOrder(records) != []
    ensures
      var id := QueueOrder(records)[0];
      && id in records
      && TransitionIn(LeasedIn(records, id, leasedAt), id, Queued, nackedAt).Ok?
      && QueueOrder(Stored(LeasedIn(records, id, leasedAt), id,
                           TransitionIn(LeasedIn(records, id, leasedAt), id, Queued, nackedAt)))
         == QueueOrder(records)
  {
    LeaseTakesTheHead(records, leasedAt);
    var id := QueueOrder(records)[0];
    var leased := LeasedIn(records, id, leasedAt);
    assert QueueKeys(Stored(leased, id, TransitionIn(leased, id, Queued, nackedAt))) == QueueKeys(records);
  }

  /** The ids that successive leases return. */
  ghost function Drained(records: Records, clock: nat -> int, count: nat): seq<string>
    decreases count
  {
    if count == 0 || QueueOrder(records) == [] then []
    else
      var id := QueueOrder(records)[0];
      if id !in records then [] else [id] + Drained(LeasedIn(records, id, clock(count)), clock, count - 1)
  }

  /** Leasing repeatedly serves the queue in its order, without gap or repetition. */
  lemma {:induction false} LeasesServeTheQueueInOrder(records: Records, clock: nat -> int, count: nat)
    requires WellKeyed(records)
    ensures Drained(records, clock, count) ==
      QueueOrder(records)[..if count < |QueueOrder(records)| then count else |QueueOrder(records)|]
    decreases count
  {
    hide QueueOrder;
    if count > 0 && QueueOrder(records) != [] {
      LeaseTakesTheHead(records, clock(count));
      LeasesServeTheQueueInOrder(LeasedIn(records, QueueOrder(records)[0], clock(count)), clock, count - 1);
    }
  }
}
