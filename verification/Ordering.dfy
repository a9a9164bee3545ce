/** The orders the source sorts by: strings byte by byte (as in `BTreeMap` keys), and the
    (time, id) pairs of the run queue and of audit queries. A finite set of keys has exactly
    one strictly increasing enumeration, `InOrder`. */
module Ordering {
  predicate StringLe(a: string, b: string) {
    if a == "" then true
    else if b == "" then false
    else if a[0] != b[0] then a[0] < b[0]
    else StringLe(a[1..], b[1..])
  }

  lemma {:induction false} StringLeReflexive(a: string)
    ensures StringLe(a, a)
  {
    if a != "" {
      StringLeReflexive(a[1..]);
    }
  }

  lemma {:induction false} StringLeAntisymmetric(a: string, b: string)
    requires StringLe(a, b) && StringLe(b, a)
    ensures a == b
  {
    if a != "" {
      StringLeAntisymmetric(a[1..], b[1..]);
      assert a == [a[0]] + a[1..] && b == [b[0]] + b[1..];
    }
  }

  lemma {:induction false} StringLeTotal(a: string, b: string)
    ensures StringLe(a, b) || StringLe(b, a)
  {
    if a != "" && b != "" && a[0] == b[0] {
      StringLeTotal(a[1..], b[1..]);
    }
  }

  lemma {:induction false} StringLeTransitive(a: string, b: string, c: string)
    requires StringLe(a, b) && StringLe(b, c)
    ensures StringLe(a, c)
  {
    if a != "" && a[0] == b[0] == c[0] {
      StringLeTransitive(a[1..], b[1..], c[1..]);
    }
  }

  /** The order of strings, by the first place at which they differ. */
  lemma {:induction false} StringLeByFirstDifference(a: string, b: string)
    ensures StringLe(a, b) <==>
      a <= b || exists k | 0 <= k < |a| && k < |b| :: a[..k] == b[..k] && a[k] < b[k]
  {
    if a != "" && b != "" && a[0] == b[0] {
      StringLeByFirstDifference(a[1..], b[1..]);
      assert a == [a[0]] + a[1..] && b == [b[0]] + b[1..];
      if k :| 0 <= k < |a[1..]| && k < |b[1..]| && a[1..][..k] == b[1..][..k] && a[1..][k] < b[1..][k] {
        assert a[..k + 1] == [a[0]] + a[1..][..k] && b[..k + 1] == [b[0]] + b[1..][..k];
        assert a[k + 1] < b[k + 1];
      }
      if k :| 0 <= k < |a| && k < |b| && a[..k] == b[..k] && a[k] < b[k] {
        assert a[1..][..k - 1] == a[..k][1..] && b[1..][..k - 1] == b[..k][1..];
        assert a[1..][k - 1] < b[1..][k - 1];
      }
    } else if a != "" && b != "" && a[0] < b[0] {
      assert a[..0] == b[..0];
    } else if a != "" && b != "" {
      assert forall k | 0 < k < |a| && k < |b| :: a[..k] == b[..k] ==> a[..k][0] == b[..k][0];
    }
  }

  datatype Key = Key(time: int, id: string)

  predicate Le(a: Key, b: Key) {
    a.time < b.time || (a.time == b.time && StringLe(a.id, b.id))
  }

  predicate Lt(a: Key, b: Key) {
    Le(a, b) && a != b
  }

  lemma LeAntisymmetric(a: Key, b: Key)
    requires Le(a, b) && Le(b, a)
    ensures a == b
  {
    StringLeAntisymmetric(a.id, b.id);
  }

  lemma LeTotal(a: Key, b: Key)
    ensures Le(a, b) || Le(b, a)
  {
    StringLeTotal(a.id, b.id);
  }

  lemma LeTransitive(a: Key, b: Key, c: Key)
    requires Le(a, b) && Le(b, c)
    ensures Le(a, c)
  {
    if a.time == b.time == c.time {
      StringLeTransitive(a.id, b.id, c.id);
    }
  }

  lemma LtTransitive(a: Key, b: Key, c: Key)
    requires Lt(a, b) && Lt(b, c)
    ensures Lt(a, c)
  {
    LeTransitive(a, b, c);
    if Le(c, b) {
      LeAntisymmetric(b, c);
    }
  }

  ghost predicate IsLeast(k: Key, keys: set<Key>) {
    k in keys && forall other | other in keys :: Le(k, other)
  }

  lemma {:induction false} LeastExists(keys: set<Key>)
    requires keys != {}
    ensures exists k :: IsLeast(k, keys)
    decreases |keys|
  {
    var k :| k in keys;
    var rest := keys - {k};
    LeTotal(k, k);
    if rest == {} {
      assert keys == {k};
      assert IsLeast(k, keys);
    } else {
      LeastExists(rest);
      var m :| IsLeast(m, rest);
      LeTotal(k, m);
      var least := if Le(k, m) then k else m;
      forall other | other in keys
        ensures Le(least, other)
      {
        if other != k && least == k {
          LeTransitive(k, m, other);
        }
      }
      assert IsLeast(least, keys);
    }
  }

  lemma LeastIsUnique(a: Key, b: Key, keys: set<Key>)
    requires IsLeast(a, keys) && IsLeast(b, keys)
    ensures a == b
  {
    LeAntisymmetric(a, b);
  }

  /** The smallest key: what `min_by` finds, and the head of a `BTreeMap`. */
  ghost function Least(keys: set<Key>): (least: Key)
    requires keys != {}
    ensures IsLeast(least, keys)
  {
    LeastExists(keys);
    var k :| IsLeast(k, keys);
    k
  }

  /** The keys in increasing order. */
  ghost function InOrder(keys: set<Key>): seq<Key>
    decreases |keys|
  {
    if keys == {} then [] else [Least(keys)] + InOrder(keys - {Least(keys)})
  }

  predicate StrictlyIncreasing(s: seq<Key>) {
    forall i, j | 0 <= i < j < |s| :: Lt(s[i], s[j])
  }

  lemma {:induction false} InOrderIsSorted(keys: set<Key>)
    ensures forall k :: k in InOrder(keys) <==> k in keys
    ensures StrictlyIncreasing(InOrder(keys))
    decreases |keys|
  {
    if keys != {} {
      InOrderIsSorted(keys - {Least(keys)});
    }
  }

  /** Any strictly increasing listing of a set is `InOrder` of it. */
  lemma {:induction false} SortedListingIsInOrder(s: seq<Key>, keys: set<Key>)
    requires StrictlyIncreasing(s)
    requires forall k :: k in s <==> k in keys
    ensures s == InOrder(keys)
  {
    if s == [] {
      assert keys == {};
    } else {
      assert s[0] in keys;
      LeTotal(s[0], s[0]);
      assert IsLeast(s[0], keys);
      LeastIsUnique(s[0], Least(keys), keys);
      assert s == [s[0]] + s[1..];
      forall k
        ensures k in s[1..] <==> k in keys - {s[0]}
      {
        if k in s[1..] {
          assert k in s;
        }
      }
      SortedListingIsInOrder(s[1..], keys - {s[0]});
    }
  }

  /** A place in a sorted list: everything before it is smaller, everything from it on larger. */
  method PlaceOf(s: seq<Key>, k: Key) returns (at: nat)
    requires StrictlyIncreasing(s) && k !in s
    ensures at <= |s|
    ensures forall i | 0 <= i < at :: Lt(s[i], k)
    ensures forall i | at <= i < |s| :: Lt(k, s[i])
  {
    at := 0;
    while at < |s| && Le(s[at], k)
      invariant at <= |s|
      invariant forall i | 0 <= i < at :: Lt(s[i], k)
    {
      at := at + 1;
    }
    forall i | at <= i < |s|
      ensures Lt(k, s[i])
    {
      LeTotal(s[at], k);
      if at < i {
        LeTransitive(k, s[at], s[i]);
      }
    }
  }

  /** Sorting a collected set of keys. */
  method Sort(keys: set<Key>) returns (s: seq<Key>)
    ensures s == InOrder(keys)
  {
    s := [];
    var rest := keys;
    while rest != {}
      invariant rest <= keys
      invariant StrictlyIncreasing(s)
      invariant forall x :: x in s <==> x in keys - rest
      decreases |rest|
    {
      var k :| k in rest;
      var at := PlaceOf(s, k);
      var s' := s[..at] + [k] + s[at..];
      forall i, j | 0 <= i < j < |s'|
        ensures Lt(s'[i], s'[j])
      {
        if i < at && j > at {
          LtTransitive(s[i], k, s[j - 1]);
        }
      }
      assert s == s[..at] + s[at..];
      assert forall x :: x in s <==> x in s[..at] || x in s[at..];
      assert forall x :: x in s' <==> x in s[..at] || x == k || x in s[at..];
      s := s';
      rest := rest - {k};
    }
    SortedListingIsInOrder(s, keys);
  }

  // ---------------------------------------------------------------- string keys

  ghost function IdKeys(ids: set<string>): set<Key> {
    set id | id in ids :: Key(0, id)
  }

  /** The ids in the order a `BTreeMap` lists them. */
  ghost function IdsInOrder(ids: set<string>): seq<string> {
    var keys := InOrder(IdKeys(ids));
    seq(|keys|, i requires 0 <= i < |keys| => keys[i].id)
  }

  lemma IdsInOrderAreTheIds(ids: set<string>)
    ensures forall id :: id in IdsInOrder(ids) <==> id in ids
    ensures forall i, j | 0 <= i < j < |IdsInOrder(ids)| :: IdsInOrder(ids)[i] != IdsInOrder(ids)[j]
    ensures forall i, j | 0 <= i < j < |IdsInOrder(ids)| :: Lt(Key(0, IdsInOrder(ids)[i]), Key(0, IdsInOrder(ids)[j]))
  {
    var keys := InOrder(IdKeys(ids));
    InOrderIsSorted(IdKeys(ids));
    assert forall k :: k in keys <==> k in IdKeys(ids);
    forall id
      ensures id in IdsInOrder(ids) <==> id in ids
    {
      if id in ids {
        assert Key(0, id) in keys;
        var i :| 0 <= i < |keys| && keys[i] == Key(0, id);
        assert IdsInOrder(ids)[i] == id;
      }
      if id in IdsInOrder(ids) {
        var i :| 0 <= i < |keys| && keys[i].id == id;
        assert keys[i] in keys;
      }
    }
    forall i, j | 0 <= i < j < |keys|
      ensures keys[i].id != keys[j].id && Lt(Key(0, keys[i].id), Key(0, keys[j].id))
    {
      assert keys[i] in keys && keys[j] in keys;
      assert Lt(keys[i], keys[j]);
    }
  }

  method SortIds(ids: set<string>) returns (sorted: seq<string>)
    ensures sorted == IdsInOrder(ids)
  {
    var keys := Sort(set id | id in ids :: Key(0, id));
    sorted := seq(|keys|, i requires 0 <= i < |keys| => keys[i].id);
  }

  /** The values of a map in the order of its keys. */
  ghost function ValuesInOrder<R>(records: map<string, R>): (values: seq<R>)
    ensures |values| == |IdsInOrder(records.Keys)|
    ensures forall i | 0 <= i < |values| ::
      IdsInOrder(records.Keys)[i] in records && values[i] == records[IdsInOrder(records.Keys)[i]]
  {
    IdsInOrderAreTheIds(records.Keys);
    var ids := IdsInOrder(records.Keys);
    assert forall i | 0 <= i < |ids| :: ids[i] in ids;
    seq(|ids|, i requires 0 <= i < |ids| => records[ids[i]])
  }

  method ListInOrder<R>(records: map<string, R>) returns (values: seq<R>)
    ensures values == ValuesInOrder(records)
  {
    var ids := SortIds(records.Keys);
    IdsInOrderAreTheIds(records.Keys);
    assert forall i | 0 <= i < |ids| :: ids[i] in ids;
    values := seq(|ids|, i requires 0 <= i < |ids| && ids[i] in records => records[ids[i]]);
  }
}
