/** Collecting the files of a tree into backup entries
    (crates/agentos-storage/src/backup.rs). */
module BackupListing {
  import opened Wrappers
  import opened StorageTree

  datatype FileEntry = FileEntry(path: string, byteLen: nat, sha256: string)

  datatype Found = Found(path: seq<string>, bytes: Bytes)

  ghost predicate Reaches(found: seq<Found>, path: seq<string>) {
    exists i | 0 <= i < |found| :: found[i].path == path
  }

  /** Exactly the files whose first name is among `done`, each once. */
  ghost predicate ListsPart(found: seq<Found>, node: Node, done: set<Name>) {
    && (forall i | 0 <= i < |found| ::
          found[i].path != [] && found[i].path[0] in done && At(node, found[i].path) == Some(File(found[i].bytes)))
    && (forall path | path != [] && path[0] in done && At(node, path).Some? && At(node, path).value.File? ::
          Reaches(found, path))
    && (forall i, j | 0 <= i < j < |found| :: found[i].path != found[j].path)
  }

  /** Exactly the files under a node, each once. */
  ghost predicate Lists(found: seq<Found>, node: Node) {
    && (forall i | 0 <= i < |found| :: At(node, found[i].path) == Some(File(found[i].bytes)))
    && (forall path | At(node, path).Some? && At(node, path).value.File? :: Reaches(found, path))
    && (forall i, j | 0 <= i < j < |found| :: found[i].path != found[j].path)
  }

  ghost function Under(name: string, found: seq<Found>): seq<Found> {
    seq(|found|, i requires 0 <= i < |found| => Found([name] + found[i].path, found[i].bytes))
  }

  ghost function EntriesOf(sha: Bytes -> string, base: seq<string>, found: seq<Found>): seq<FileEntry> {
    seq(|found|, i requires 0 <= i < |found| =>
      FileEntry(Slash(base + found[i].path), |found[i].bytes|, sha(found[i].bytes)))
  }

  lemma PartFiles(found: seq<Found>, node: Node, done: set<Name>, name: Name, sub: seq<Found>)
    requires node.Dir? && name in node.entries
    requires ListsPart(found, node, done) && Lists(sub, node.entries[name])
    ensures forall i | 0 <= i < |found + Under(name, sub)| ::
        var f := (found + Under(name, sub))[i];
        f.path != [] && f.path[0] in done + {name} && At(node, f.path) == Some(File(f.bytes))
  {
    forall i | 0 <= i < |sub|
      ensures At(node, Under(name, sub)[i].path) == Some(File(sub[i].bytes))
    {
      assert Under(name, sub)[i].path[1..] == sub[i].path;
    }
  }

  lemma PartIsComplete(found: seq<Found>, node: Node, done: set<Name>, name: Name, sub: seq<Found>, path: seq<string>)
    requires node.Dir? && name in node.entries
    requires ListsPart(found, node, done) && Lists(sub, node.entries[name])
    requires path != [] && path[0] in done + {name} && At(node, path).Some? && At(node, path).value.File?
    ensures Reaches(found + Under(name, sub), path)
  {
    var longer := found + Under(name, sub);
    if path[0] == name {
      assert Reaches(sub, path[1..]);
      var i :| 0 <= i < |sub| && sub[i].path == path[1..];
      assert longer[|found| + i].path[1..] == path[1..];
      assert longer[|found| + i].path == path;
    } else {
      assert Reaches(found, path);
      var i :| 0 <= i < |found| && found[i].path == path;
      assert longer[i].path == path;
    }
  }

  lemma PartIsDistinct(found: seq<Found>, node: Node, done: set<Name>, name: Name, sub: seq<Found>)
    requires name !in done && ListsPart(found, node, done)
    requires forall i, j | 0 <= i < j < |sub| :: sub[i].path != sub[j].path
    ensures
      var longer := found + Under(name, sub);
      forall i, j | 0 <= i < j < |longer| :: longer[i].path != longer[j].path
  {
    hide At;
    var longer := found + Under(name, sub);
    forall i, j | 0 <= i < j < |longer|
      ensures longer[i].path != longer[j].path
    {
      if i >= |found| {
        assert longer[i].path[1..] == sub[i - |found|].path && longer[j].path[1..] == sub[j - |found|].path;
      }
    }
  }

  lemma ListingGrows(found: seq<Found>, node: Node, done: set<Name>, name: Name, sub: seq<Found>)
    requires node.Dir? && name in node.entries && name !in done
    requires ListsPart(found, node, done) && Lists(sub, node.entries[name])
    ensures ListsPart(found + Under(name, sub), node, done + {name})
  {
    hide At, Under, Reaches;
    PartFiles(found, node, done, name, sub);
    PartIsDistinct(found, node, done, name, sub);
    forall path | path != [] && path[0] in done + {name} && At(node, path).Some? && At(node, path).value.File?
      ensures Reaches(found + Under(name, sub), path)
    {
      PartIsComplete(found, node, done, name, sub, path);
    }
  }

  lemma WholeListing(found: seq<Found>, node: Node)
    requires node.Dir? && ListsPart(found, node, node.entries.Keys)
    ensures Lists(found, node)
  {
    forall path | At(node, path).Some? && At(node, path).value.File?
      ensures Reaches(found, path)
    {
      assert path != [] && path[0] in node.entries;
    }
  }

  lemma LeafListing(node: Node)
    requires !node.Dir?
    ensures Lists(if node.File? then [Found([], node.bytes)] else [], node)
  {
    if node.File? {
      assert [Found([], node.bytes)][0].path == [];
    }
  }

  lemma EntriesUnder(sha: Bytes -> string, base: seq<string>, name: string, found: seq<Found>, sub: seq<Found>)
    ensures EntriesOf(sha, base, found + Under(name, sub)) == EntriesOf(sha, base, found) +
      EntriesOf(sha, base + [name], sub)
  {
    forall i | 0 <= i < |sub|
      ensures base + Under(name, sub)[i].path == base + [name] + sub[i].path
    {
      assert base + ([name] + sub[i].path) == base + [name] + sub[i].path;
    }
  }

  /** `collect_file_entries_inner`, whatever order directories are read in. */
  method CollectInner(sha: Bytes -> string, base: seq<string>, current: Node)
    returns (entries: seq<FileEntry>, ghost found: seq<Found>)
    requires current.Dir?
    ensures Lists(found, current)
    ensures entries == EntriesOf(sha, base, found)
    decreases current
  {
    hide EntriesOf, Lists, ListsPart, At, Under, Reaches;
    entries, found := [], [];
    var rest := current.entries.Keys;
    assert entries == EntriesOf(sha, base, found) by {
      NoEntries(sha, base);
    }
    NothingListed(current);
    while rest != {}
      invariant rest <= current.entries.Keys
      invariant ListsPart(found, current, current.entries.Keys - rest)
      invariant entries == EntriesOf(sha, base, found)
      decreases |rest|
    {
      var name :| name in rest;
      var node := current.entries[name];
      ghost var sub: seq<Found> := [];
      if node.Dir? {
        var inner;
        inner, sub := CollectInner(sha, base + [name], node);
        entries := entries + inner;
      } else if node.File? {
        sub := [Found([], node.bytes)];
        LeafListing(node);
        entries := entries + [FileEntry(Slash(base + [name]), |node.bytes|, sha(node.bytes))];
        OneEntry(sha, base + [name], node.bytes);
      } else {
        NoEntries(sha, base + [name]);
        LeafListing(node);
        assert entries + [] == entries;
      }
      ListingGrows(found, current, current.entries.Keys - rest, name, sub);
      EntriesUnder(sha, base, name, found, sub);
      assert current.entries.Keys - rest + {name} == current.entries.Keys - (rest - {name});
      found := found + Under(name, sub);
      rest := rest - {name};
    }
    assert current.entries.Keys - rest == current.entries.Keys;
    WholeListing(found, current);
  }

  lemma NothingListed(node: Node)
    requires node.Dir?
    ensures ListsPart([], node, node.entries.Keys - node.entries.Keys)
  {
  }

  lemma NoEntries(sha: Bytes -> string, base: seq<string>)
    ensures EntriesOf(sha, base, []) == []
  {
  }

  lemma OneEntry(sha: Bytes -> string, base: seq<string>, bytes: Bytes)
    ensures EntriesOf(sha, base, [Found([], bytes)]) == [FileEntry(Slash(base), |bytes|, sha(bytes))]
  {
    assert base + [] == base;
  }
}
