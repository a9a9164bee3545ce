/** Paged audit queries (crates/audit-log/src/lib.rs). The query's filter is any predicate. */
module AuditQuery {
  import opened Wrappers
  import opened Ordering
  import opened AuditChain

  const USIZE_MAX: nat := 0xFFFF_FFFF_FFFF_FFFF

  /** The sort key of an event. */
  function KeyOf(e: AuditEvent): Key {
    Key(e.timestamp, e.auditId)
  }

  function Matching(matches: AuditEvent -> bool, events: seq<AuditEvent>): seq<AuditEvent> {
    if events == [] then []
    else
      Matching(matches, events[..|events| - 1]) +
      if matches(events[|events| - 1]) then [events[|events| - 1]] else []
  }

  /** Into its place, after the events whose key is not larger. */
  function Placed(sorted: seq<AuditEvent>, e: AuditEvent): seq<AuditEvent> {
    if sorted == [] || Le(KeyOf(sorted[|sorted| - 1]), KeyOf(e)) then sorted + [e]
    else Placed(sorted[..|sorted| - 1], e) + [sorted[|sorted| - 1]]
  }

  /** The stable `sort_by` of the query. */
  function StableSorted(events: seq<AuditEvent>): seq<AuditEvent> {
    if events == [] then [] else Placed(StableSorted(events[..|events| - 1]), events[|events| - 1])
  }

  function SaturatingAdd(a: nat, b: nat): nat {
    if a + b > USIZE_MAX then USIZE_MAX else a + b
  }

  datatype QueryResult = QueryResult(events: seq<AuditEvent>, totalMatched: nat, offset: nat, limit: nat, hasMore: bool)

  /** `skip(offset).take(limit)` */
  function Page<T>(s: seq<T>, offset: nat, limit: nat): seq<T> {
    s[Min(offset, |s|)..Min(offset + limit, |s|)]
  }

  function Query(matches: AuditEvent -> bool, log: seq<AuditEvent>, offset: nat, limit: nat): QueryResult {
    var events := StableSorted(Matching(matches, log));
    QueryResult(
      if limit == 0 then [] else Page(events, offset, limit),
      |events|, offset, limit,
      SaturatingAdd(offset, limit) < |events|)
  }

  // ---------------------------------------------------------------- the sort

  ghost predicate Sorted(s: seq<AuditEvent>) {
    forall i, j | 0 <= i < j < |s| :: Le(KeyOf(s[i]), KeyOf(s[j]))
  }

  /** The events with a given key, in order. */
  function WithKey(s: seq<AuditEvent>, k: Key): seq<AuditEvent> {
    if s == [] then []
    else WithKey(s[..|s| - 1], k) + if KeyOf(s[|s| - 1]) == k then [s[|s| - 1]] else []
  }

  /** The same events, those with equal keys in the same order. */
  ghost predicate StableRearrangement(s: seq<AuditEvent>, t: seq<AuditEvent>) {
    multiset(s) == multiset(t) && forall k :: WithKey(s, k) == WithKey(t, k)
  }

  lemma {:induction false} PlacedIsSorted(sorted: seq<AuditEvent>, e: AuditEvent)
    requires Sorted(sorted)
    ensures Sorted(Placed(sorted, e))
    ensures multiset(Placed(sorted, e)) == multiset(sorted) + multiset{e}
  {
    if sorted == [] {
    } else {
      var front, last := sorted[..|sorted| - 1], sorted[|sorted| - 1];
      assert sorted == front + [last];
      if Le(KeyOf(last), KeyOf(e)) {
        forall i | 0 <= i < |sorted|
          ensures Le(KeyOf(sorted[i]), KeyOf(e))
        {
          if i < |front| {
            LeTransitive(KeyOf(sorted[i]), KeyOf(last), KeyOf(e));
          }
        }
      } else {
        PlacedIsSorted(front, e);
        LeTotal(KeyOf(last), KeyOf(e));
        var placed := Placed(front, e);
        forall i | 0 <= i < |placed|
          ensures Le(KeyOf(placed[i]), KeyOf(last))
        {
          assert placed[i] in multiset(placed);
          assert placed[i] in front || placed[i] == e;
        }
      }
    }
  }

  lemma {:induction false} PlacedIsStable(sorted: seq<AuditEvent>, e: AuditEvent, k: Key)
    ensures WithKey(Placed(sorted, e), k) == WithKey(sorted, k) + if KeyOf(e) == k then [e] else []
  {
    if sorted == [] || Le(KeyOf(sorted[|sorted| - 1]), KeyOf(e)) {
      assert (sorted + [e])[..|sorted|] == sorted;
    } else {
      var front, last := sorted[..|sorted| - 1], sorted[|sorted| - 1];
      PlacedIsStable(front, e, k);
      assert (Placed(front, e) + [last])[..|Placed(front, e)|] == Placed(front, e);
      StringLeReflexive(e.auditId);
    }
  }

  /** The sort puts the events in (timestamp, audit id) order and keeps equal keys in log order. */
  lemma {:induction false} SortIsSortedAndStable(events: seq<AuditEvent>)
    ensures Sorted(StableSorted(events)) && StableRearrangement(StableSorted(events), events)
  {
    if events != [] {
      var front, last := events[..|events| - 1], events[|events| - 1];
      SortIsSortedAndStable(front);
      PlacedIsSorted(StableSorted(front), last);
      assert events == front + [last];
      forall k
        ensures WithKey(StableSorted(events), k) == WithKey(events, k)
      {
        PlacedIsStable(StableSorted(front), last, k);
      }
    }
  }

  lemma {:induction false} LastWithKey(s: seq<AuditEvent>, k: Key)
    ensures WithKey(s, k) != [] <==> exists i | 0 <= i < |s| :: KeyOf(s[i]) == k
  {
    if s != [] {
      LastWithKey(s[..|s| - 1], k);
    }
  }

  lemma LastKeyBounds(s: seq<AuditEvent>, t: seq<AuditEvent>)
    requires Sorted(s) && t != [] && forall k :: WithKey(s, k) == WithKey(t, k)
    ensures s != [] && Le(KeyOf(t[|t| - 1]), KeyOf(s[|s| - 1]))
  {
    var k := KeyOf(t[|t| - 1]);
    LastWithKey(t, k);
    LastWithKey(s, k);
    var i :| 0 <= i < |s| && KeyOf(s[i]) == k;
    LeTotal(k, k);
  }

  /** Two sorted lists with the same events under every key end in the same event. */
  lemma SameLast(s: seq<AuditEvent>, t: seq<AuditEvent>)
    requires Sorted(s) && Sorted(t) && s != [] && forall k :: WithKey(s, k) == WithKey(t, k)
    ensures t != [] && s[|s| - 1] == t[|t| - 1]
  {
    hide Sorted;
    LastKeyBounds(t, s);
    LastKeyBounds(s, t);
    LeAntisymmetric(KeyOf(s[|s| - 1]), KeyOf(t[|t| - 1]));
    var k := KeyOf(s[|s| - 1]);
    assert WithKey(s, k)[|WithKey(s, k)| - 1] == s[|s| - 1];
    assert WithKey(t, k)[|WithKey(t, k)| - 1] == t[|t| - 1];
  }

  /** So there is only one such order: whatever stable sorting algorithm is used, the query sorts
      to this list. */
  lemma {:induction false} StableSortIsUnique(s: seq<AuditEvent>, t: seq<AuditEvent>)
    requires Sorted(s) && Sorted(t) && forall k :: WithKey(s, k) == WithKey(t, k)
    ensures s == t
    decreases |s|
  {
    if s == [] {
      if t != [] {
        SameLast(t, s);
      }
    } else {
      SameLast(s, t);
      var frontS, frontT := s[..|s| - 1], t[..|t| - 1];
      forall k
        ensures WithKey(frontS, k) == WithKey(frontT, k)
      {
        var tail := if KeyOf(s[|s| - 1]) == k then [s[|s| - 1]] else [];
        assert WithKey(s, k) == WithKey(frontS, k) + tail;
        assert WithKey(t, k) == WithKey(frontT, k) + tail;
        assert WithKey(frontS, k) == WithKey(s, k)[..|WithKey(s, k)| - |tail|];
        assert WithKey(frontT, k) == WithKey(t, k)[..|WithKey(t, k)| - |tail|];
      }
      StableSortIsUnique(frontS, frontT);
      assert s == frontS + [s[|s| - 1]] && t == frontT + [t[|t| - 1]];
    }
  }

  // ---------------------------------------------------------------- paging

  lemma {:induction false} MatchingIsNoLonger(matches: AuditEvent -> bool, events: seq<AuditEvent>)
    ensures |Matching(matches, events)| <= |events|
    ensures forall e | e in Matching(matches, events) :: e in events && matches(e)
  {
    if events != [] {
      MatchingIsNoLonger(matches, events[..|events| - 1]);
    }
  }

  lemma SortKeepsLength(events: seq<AuditEvent>)
    ensures |StableSorted(events)| == |events|
  {
    SortIsSortedAndStable(events);
    assert |multiset(StableSorted(events))| == |multiset(events)|;
  }

  /** A page that reports more is followed by one that starts later and inside the result. */
  lemma NextPageIsInside(matches: AuditEvent -> bool, log: seq<AuditEvent>, offset: nat, limit: nat)
    requires |log| <= USIZE_MAX && Query(matches, log, offset, limit).hasMore
    ensures SaturatingAdd(offset, limit) == offset + limit < |StableSorted(Matching(matches, log))|
  {
    MatchingIsNoLonger(matches, log);
    SortKeepsLength(Matching(matches, log));
  }

  /** A client reading page after page until `has_more` is false. */
  function PagesFrom(matches: AuditEvent -> bool, log: seq<AuditEvent>, limit: nat, offset: nat): seq<seq<AuditEvent>>
    requires limit >= 1 && |log| <= USIZE_MAX
    decreases USIZE_MAX - offset
  {
    var result := Query(matches, log, offset, limit);
    if result.hasMore then
      NextPageIsInside(matches, log, offset, limit);
      MatchingIsNoLonger(matches, log);
      SortKeepsLength(Matching(matches, log));
      [result.events] + PagesFrom(matches, log, limit, offset + limit)
    else [result.events]
  }

  function Concat<T>(pages: seq<seq<T>>): seq<T> {
    if pages == [] then [] else pages[0] + Concat(pages[1..])
  }

  lemma PageIsSlice(matches: AuditEvent -> bool, log: seq<AuditEvent>, offset: nat, limit: nat)
    requires limit >= 1 && |log| <= USIZE_MAX
    requires offset <= |StableSorted(Matching(matches, log))|
    ensures
      var events := StableSorted(Matching(matches, log));
      var result := Query(matches, log, offset, limit);
      if result.hasMore then offset + limit < |events| && result.events == events[offset..offset + limit]
      else |events| <= offset + limit && result.events == events[offset..]
  {
    hide Matching, StableSorted;
    MatchingIsNoLonger(matches, log);
    SortKeepsLength(Matching(matches, log));
  }

  lemma {:induction false} PagesFromAnOffset(matches: AuditEvent -> bool, log: seq<AuditEvent>, limit: nat, offset: nat)
    requires limit >= 1 && |log| <= USIZE_MAX
    requires offset <= |StableSorted(Matching(matches, log))|
    ensures
      var pages := PagesFrom(matches, log, limit, offset);
      && Concat(pages) == StableSorted(Matching(matches, log))[offset..]
      && (forall i | 0 <= i < |pages| - 1 :: |pages[i]| == limit)
      && |pages[|pages| - 1]| <= limit
    decreases USIZE_MAX - offset
  {
    hide Matching, StableSorted, Query;
    var events := StableSorted(Matching(matches, log));
    var result := Query(matches, log, offset, limit);
    PageIsSlice(matches, log, offset, limit);
    if result.hasMore {
      MatchingIsNoLonger(matches, log);
      SortKeepsLength(Matching(matches, log));
      PagesFromAnOffset(matches, log, limit, offset + limit);
      assert events[offset..] == events[offset..offset + limit] + events[offset + limit..];
      ConcatCons(result.events, PagesFrom(matches, log, limit, offset + limit));
    } else {
      ConcatCons(result.events, []);
    }
  }

  lemma ConcatCons<T>(page: seq<T>, rest: seq<seq<T>>)
    ensures Concat([page] + rest) == page + Concat(rest)
    ensures Concat([page]) == page
  {
    assert ([page] + rest)[1..] == rest;
    assert [page][1..] == [];
    assert page + [] == page;
  }

  // ---------------------------------------------------------------- nothing dropped, nothing added

  lemma {:induction false} MatchingCounts(matches: AuditEvent -> bool, log: seq<AuditEvent>, e: AuditEvent)
    ensures multiset(Matching(matches, log))[e] == if matches(e) then multiset(log)[e] else 0
  {
    if log != [] {
      var front, last := log[..|log| - 1], log[|log| - 1];
      MatchingCounts(matches, front, e);
      assert log == front + [last];
    }
  }

  /** The places of the log whose event matches. */
  function MatchingPlaces(matches: AuditEvent -> bool, log: seq<AuditEvent>): set<nat> {
    set i: nat | i < |log| && matches(log[i])
  }

  lemma {:induction false} MatchingLength(matches: AuditEvent -> bool, log: seq<AuditEvent>)
    ensures |Matching(matches, log)| == |MatchingPlaces(matches, log)|
  {
    if log == [] {
      assert MatchingPlaces(matches, log) == {};
    } else {
      var n: nat := |log| - 1;
      MatchingLength(matches, log[..n]);
      assert MatchingPlaces(matches, log) ==
             MatchingPlaces(matches, log[..n]) + if matches(log[n]) then {n} else {};
    }
  }

  /** The two events occur in the log, in this order. */
  ghost predicate InLogOrder(log: seq<AuditEvent>, a: AuditEvent, b: AuditEvent) {
    exists p, q | 0 <= p < q < |log| :: log[p] == a && log[q] == b
  }

  lemma {:induction false} MatchingKeepsOrder(matches: AuditEvent -> bool, log: seq<AuditEvent>, k: Key, a: nat, b: nat)
    requires a < b < |WithKey(Matching(matches, log), k)|
    ensures InLogOrder(log, WithKey(Matching(matches, log), k)[a], WithKey(Matching(matches, log), k)[b])
  {
    hide Matching, WithKey, InLogOrder;
    MatchingWithKey(matches, log, k);
    var n := |log| - 1;
    var front := log[..n];
    var some := WithKey(Matching(matches, front), k);
    if b < |some| {
      MatchingKeepsOrder(matches, front, k, a, b);
      OrderStays(log, some[a], some[b]);
    } else {
      WithKeyTakes(Matching(matches, front), k, some[a]);
      MatchingIsNoLonger(matches, front);
      LastInOrder(log, some[a]);
    }
  }

  lemma MatchingWithKey(matches: AuditEvent -> bool, log: seq<AuditEvent>, k: Key)
    ensures WithKey(Matching(matches, log), k) ==
      if log == [] then []
      else
        var last := log[|log| - 1];
        WithKey(Matching(matches, log[..|log| - 1]), k) + if matches(last) && KeyOf(last) == k then [last] else []
  {
    if log != [] {
      var m := Matching(matches, log[..|log| - 1]);
      if matches(log[|log| - 1]) {
        assert (m + [log[|log| - 1]])[..|m|] == m;
      } else {
        assert Matching(matches, log) == m;
      }
    }
  }

  lemma OrderStays(log: seq<AuditEvent>, a: AuditEvent, b: AuditEvent)
    requires log != [] && InLogOrder(log[..|log| - 1], a, b)
    ensures InLogOrder(log, a, b)
  {
    var front := log[..|log| - 1];
    var p, q :| 0 <= p < q < |front| && front[p] == a && front[q] == b;
    assert log[p] == a && log[q] == b;
  }

  lemma LastInOrder(log: seq<AuditEvent>, a: AuditEvent)
    requires log != [] && a in log[..|log| - 1]
    ensures InLogOrder(log, a, log[|log| - 1])
  {
    var front := log[..|log| - 1];
    var p :| 0 <= p < |front| && front[p] == a;
    assert log[p] == a;
  }

  lemma {:induction false} WithKeyTakes(s: seq<AuditEvent>, k: Key, e: AuditEvent)
    requires e in WithKey(s, k)
    ensures e in s
  {
    if e !in WithKey(s[..|s| - 1], k) {
      assert e == s[|s| - 1];
    } else {
      WithKeyTakes(s[..|s| - 1], k, e);
    }
  }

  lemma {:induction false} WithKeyOfPrefix(s: seq<AuditEvent>, k: Key, j: nat)
    requires j <= |s|
    ensures WithKey(s[..j], k) <= WithKey(s, k)
    decreases |s|
  {
    if j < |s| {
      assert s[..|s| - 1][..j] == s[..j];
      WithKeyOfPrefix(s[..|s| - 1], k, j);
    } else {
      assert s[..j] == s;
    }
  }

  /** Where an event stands among those with its key. */
  lemma PlaceAmongKey(s: seq<AuditEvent>, i: nat, j: nat)
    requires i < j <= |s|
    ensures
      var k := KeyOf(s[i]);
      |WithKey(s[..i], k)| < |WithKey(s[..j], k)| && |WithKey(s[..i], k)| < |WithKey(s, k)| &&
      WithKey(s, k)[|WithKey(s[..i], k)|] == s[i]
  {
    var k := KeyOf(s[i]);
    assert s[..i + 1][..i] == s[..i];
    assert WithKey(s[..i + 1], k) == WithKey(s[..i], k) + [s[i]];
    assert s[..j][..i + 1] == s[..i + 1];
    WithKeyOfPrefix(s[..j], k, i + 1);
    WithKeyOfPrefix(s, k, i + 1);
  }

  lemma SortKeepsLogOrder(matches: AuditEvent -> bool, log: seq<AuditEvent>, i: nat, j: nat)
    requires i < j < |StableSorted(Matching(matches, log))|
    ensures
      var s := StableSorted(Matching(matches, log));
      KeyOf(s[i]) == KeyOf(s[j]) ==> InLogOrder(log, s[i], s[j])
  {
    hide Matching, StableSorted, InLogOrder;
    var s := StableSorted(Matching(matches, log));
    if KeyOf(s[i]) == KeyOf(s[j]) {
      var k := KeyOf(s[i]);
      SortIsSortedAndStable(Matching(matches, log));
      PlaceAmongKey(s, i, j);
      PlaceAmongKey(s, j, |s|);
      assert s[..|s|] == s;
      assert WithKey(s, k) == WithKey(Matching(matches, log), k);
      MatchingKeepsOrder(matches, log, k, |WithKey(s[..i], k)|, |WithKey(s[..j], k)|);
    }
  }

  /** The pages contain every event of the log that matches, exactly as often as the log does, and no
      other; by time, then by id, and in log order where both are equal. */
  lemma PagesAreTheMatchingEvents(matches: AuditEvent -> bool, log: seq<AuditEvent>, limit: nat)
    requires limit >= 1 && |log| <= USIZE_MAX
    ensures
      var all := Concat(PagesFrom(matches, log, limit, 0));
      && (forall e :: multiset(all)[e] == if matches(e) then multiset(log)[e] else 0)
      && forall i, j | 0 <= i < j < |all| ::
           || all[i].timestamp < all[j].timestamp
           || (&& all[i].timestamp == all[j].timestamp && StringLe(all[i].auditId, all[j].auditId)
               && (all[i].auditId == all[j].auditId ==> InLogOrder(log, all[i], all[j])))
  {
    hide Matching, StableSorted, InLogOrder, StringLe;
    var matching := Matching(matches, log);
    PagesFromAnOffset(matches, log, limit, 0);
    SortIsSortedAndStable(matching);
    var all := StableSorted(matching);
    assert all[0..] == all;
    forall e
      ensures multiset(all)[e] == if matches(e) then multiset(log)[e] else 0
    {
      MatchingCounts(matches, log, e);
    }
    forall i, j | 0 <= i < j < |all|
      ensures all[i].auditId == all[j].auditId && all[i].timestamp == all[j].timestamp ==>
                InLogOrder(log, all[i], all[j])
    {
      SortKeepsLogOrder(matches, log, i, j);
    }
  }

  /** Paging partitions the query: the pages at 0, limit, 2*limit, ... until `has_more` is false
      concatenate to exactly the matching events, each once, in (timestamp, audit id) order, and
      every page but the last is full. */
  lemma PagingPartitionsTheQuery(matches: AuditEvent -> bool, log: seq<AuditEvent>, limit: nat)
    requires limit >= 1 && |log| <= USIZE_MAX
    ensures
      var pages := PagesFrom(matches, log, limit, 0);
      && Sorted(Concat(pages))
      && StableRearrangement(Concat(pages), Matching(matches, log))
      && (forall i | 0 <= i < |pages| - 1 :: |pages[i]| == limit)
      && |pages[|pages| - 1]| <= limit
  {
    hide Sorted, StableRearrangement;
    PagesFromAnOffset(matches, log, limit, 0);
    SortIsSortedAndStable(Matching(matches, log));
    assert StableSorted(Matching(matches, log))[0..] == StableSorted(Matching(matches, log));
  }

  /** A page reports the true total, and whether there is more exactly -- saturation never shows,
      because no list is longer than the largest offset. With limit 0 it is empty and still reports
      more as long as its offset is inside the result: a client advancing by such a limit would
      never finish, which is why paging needs a limit of at least 1. */
  lemma HasMoreIsExact(matches: AuditEvent -> bool, log: seq<AuditEvent>, offset: nat, limit: nat)
    requires |log| <= USIZE_MAX
    ensures
      var result := Query(matches, log, offset, limit);
      && result.totalMatched == |MatchingPlaces(matches, log)|
      && (result.hasMore <==> offset + limit < result.totalMatched)
      && result.offset == offset && result.limit == limit
      && |result.events| == if offset >= result.totalMatched then 0 else Min(limit, result.totalMatched - offset)
  {
    MatchingIsNoLonger(matches, log);
    MatchingLength(matches, log);
    SortKeepsLength(Matching(matches, log));
  }
}
