/** A file system tree as backups see it (crates/agentos-storage/src/backup.rs): regular files,
    directories, and everything else (links, sockets), which copying skips. */
module StorageTree {
  import opened Wrappers

  newtype byte = x: int | 0 <= x < 256

  type Bytes = seq<byte>

  predicate IsName(name: string) {
    name != "" && '/' !in name && name != "." && name != ".."
  }

  /** What a directory entry can be called. */
  type Name = name: string | IsName(name) witness "a"

  datatype Node = File(bytes: Bytes) | Dir(entries: map<Name, Node>) | Other

  const EMPTY_DIR := Dir(map[])

  /** Only names are entries. */
  function AsName(node: Node, name: string): (n: Name)
    requires node.Dir? && name in node.entries
    ensures n == name
  {
    name
  }

  /** The node at a path of names. */
  function At(node: Node, path: seq<string>): Option<Node>
    decreases |path|
  {
    if path == [] then Some(node)
    else if !node.Dir? || path[0] !in node.entries then None
    else At(node.entries[AsName(node, path[0])], path[1..])
  }

  lemma {:induction false} ReachedNamesAreNames(node: Node, path: seq<string>)
    requires At(node, path).Some?
    ensures forall i | 0 <= i < |path| :: IsName(path[i])
    decreases |path|
  {
    if path != [] {
      ReachedNamesAreNames(node.entries[AsName(node, path[0])], path[1..]);
      assert path == [path[0]] + path[1..];
    }
  }

  // ---------------------------------------------------------------- slash paths

  function Slash(names: seq<string>): string {
    if names == [] then "" else if |names| == 1 then names[0] else names[0] + "/" + Slash(names[1..])
  }

  function Split(path: string): (names: seq<string>)
    ensures names != []
  {
    if path == "" then [""]
    else if path[0] == '/' then [""] + Split(path[1..])
    else
      var rest := Split(path[1..]);
      [[path[0]] + rest[0]] + rest[1..]
  }

  lemma {:induction false} SlashSplit(path: string)
    ensures Slash(Split(path)) == path
  {
    if path != "" {
      SlashSplit(path[1..]);
      assert path == [path[0]] + path[1..];
    }
  }

  lemma {:induction false} SplitName(name: string)
    requires '/' !in name
    ensures Split(name) == [name]
  {
    if name != "" {
      SplitName(name[1..]);
      assert name == [name[0]] + name[1..];
    }
  }

  lemma {:induction false} SplitAfterName(name: string, rest: string)
    requires '/' !in name
    ensures Split(name + "/" + rest) == [name] + Split(rest)
  {
    var path := name + "/" + rest;
    if name == "" {
      assert path[1..] == rest;
    } else {
      SplitAfterName(name[1..], rest);
      assert path[1..] == name[1..] + "/" + rest;
      assert ([name[1..]] + Split(rest))[1..] == Split(rest);
      assert name == [name[0]] + name[1..];
    }
  }

  lemma {:induction false} SplitSlash(names: seq<string>)
    requires names != [] && forall i | 0 <= i < |names| :: '/' !in names[i]
    ensures Split(Slash(names)) == names
  {
    if |names| == 1 {
      SplitName(names[0]);
    } else {
      SplitAfterName(names[0], Slash(names[1..]));
      SplitSlash(names[1..]);
    }
  }

  /** The name stands in the path at place `i`, between slashes or the ends. */
  predicate IsComponentAt(path: string, name: string, i: nat) {
    && i + |name| <= |path| && path[i..i + |name|] == name
    && (i == 0 || path[i - 1] == '/') && (i + |name| == |path| || path[i + |name|] == '/')
  }

  lemma FirstComponent(name: string, rest: string, other: string, i: nat)
    requires '/' !in name && '/' !in other
    ensures IsComponentAt(name + "/" + rest, other, i) <==>
            (i == 0 && other == name) || (i > |name| && IsComponentAt(rest, other, i - |name| - 1))
  {
    var path := name + "/" + rest;
    assert path[|name|] == '/';
    assert path[|name| + 1..] == rest && path[..|name|] == name;
    if i > |name| && i + |other| <= |path| {
      assert path[i..i + |other|] == rest[i - |name| - 1..i - |name| - 1 + |other|];
    } else if i + |other| <= |path| {
      if i + |other| > |name| {
        assert path[i..i + |other|][|name| - i] == '/';
      }
      if i + |other| < |name| {
        assert name[i + |other|] in name;
      }
      if i > 0 {
        assert path[i - 1] == if i - 1 < |name| then name[i - 1] else '/';
        assert i - 1 < |name| ==> name[i - 1] in name;
      }
    }
  }

  ghost predicate HasComponent(path: string, name: string) {
    exists i: nat | i <= |path| :: IsComponentAt(path, name, i)
  }

  lemma OneComponent(path: string, name: string)
    requires '/' !in path
    ensures HasComponent(path, name) <==> path == name
  {
    forall j | 0 <= j < |path|
      ensures path[j] != '/'
    {
      assert path[j] in path;
    }
    if path == name {
      assert IsComponentAt(path, name, 0);
    }
  }

  lemma MoreComponents(first: string, rest: string, name: string)
    requires '/' !in first && '/' !in name
    ensures HasComponent(first + "/" + rest, name) <==> name == first || HasComponent(rest, name)
  {
    hide IsComponentAt;
    var path := first + "/" + rest;
    if i: nat :| i <= |path| && IsComponentAt(path, name, i) {
      FirstComponent(first, rest, name, i);
    }
    if name == first {
      FirstComponent(first, rest, name, 0);
    }
    if i: nat :| i <= |rest| && IsComponentAt(rest, name, i) {
      FirstComponent(first, rest, name, i + |first| + 1);
    }
  }

  /** A path consists of the names between its slashes. */
  lemma {:induction false} ComponentsExactly(path: string, name: string)
    requires '/' !in name
    ensures name in Split(path) <==> HasComponent(path, name)
    decreases |path|
  {
    hide HasComponent;
    if '/' !in path {
      SplitName(path);
      OneComponent(path, name);
    } else {
      var k := FirstSlash(path);
      var first, rest := path[..k], path[k + 1..];
      assert path == first + "/" + rest;
      SplitAfterName(first, rest);
      MoreComponents(first, rest, name);
      ComponentsExactly(rest, name);
    }
  }

  lemma FirstSlash(path: string) returns (k: nat)
    requires '/' in path
    ensures k < |path| && path[k] == '/' && '/' !in path[..k]
  {
    k := 0;
    while path[k] != '/'
      invariant k < |path| && '/' !in path[..k]
      invariant '/' in path[k..]
      decreases |path| - k
    {
      k := k + 1;
    }
  }

  /** The file at a slash path, if there is one. */
  function FileAt(node: Node, path: string): Option<Bytes> {
    match At(node, Split(path))
    case Some(File(bytes)) => Some(bytes)
    case _ => None
  }

  // ---------------------------------------------------------------- copying

  /** What copying a directory into an empty one makes: entries the filter refuses are left out,
      as is everything that is neither a file nor a directory. */
  function Copied(node: Node, shouldCopy: string -> bool): Node
    decreases node
  {
    match node
    case Dir(entries) =>
      Dir(map name | name in entries && shouldCopy(name) && !entries[name].Other? :: Copied(entries[name], shouldCopy))
    case _ => node
  }

  lemma CopiedEntries(node: Node, shouldCopy: string -> bool)
    requires node.Dir?
    ensures Copied(node, shouldCopy).Dir?
    ensures forall name: Name :: name in Copied(node, shouldCopy).entries <==>
        name in node.entries && shouldCopy(name) && !node.entries[name].Other?
    ensures forall name: Name | name in Copied(node, shouldCopy).entries ::
        Copied(node, shouldCopy).entries[name] == Copied(node.entries[name], shouldCopy)
  {
  }

  /** `copy_dir_contents`, whatever order the directory is read in. */
  method CopyDirContents(source: Node, shouldCopy: string -> bool) returns (target: Node)
    requires source.Dir?
    ensures target == Copied(source, shouldCopy)
    decreases source
  {
    hide Copied;
    var copy: map<Name, Node> := map[];
    var rest := source.entries.Keys;
    CopiedEntries(source, shouldCopy);
    ghost var expected := Copied(source, shouldCopy).entries;
    while rest != {}
      invariant rest <= source.entries.Keys
      invariant forall name: Name :: name in copy <==> name in expected && name !in rest
      invariant forall name: Name | name in copy :: copy[name] == expected[name]
      decreases |rest|
    {
      var name :| name in rest;
      var entry := source.entries[name];
      rest := rest - {name};
      if shouldCopy(name) {
        if entry.Dir? {
          var sub := CopyDirContents(entry, shouldCopy);
          copy := copy[name := sub];
        } else if entry.File? {
          FileCopy(entry, shouldCopy);
          copy := copy[name := entry];
        }
      }
    }
    assert copy == expected;
    target := Dir(copy);
  }

  lemma CopyOfOther(node: Node, shouldCopy: string -> bool)
    ensures Copied(node, shouldCopy).Other? <==> node.Other?
  {
  }

  lemma FileCopy(node: Node, shouldCopy: string -> bool)
    requires node.File?
    ensures Copied(node, shouldCopy) == node
  {
  }

  /** What is at a path of a copy: what is there in the source, unless a name on the way is
      refused; directories again as copies, and nothing that is neither file nor directory. */
  lemma {:induction false} CopyKeepsContents(node: Node, shouldCopy: string -> bool, path: seq<string>)
    requires !node.Other?
    ensures
      At(Copied(node, shouldCopy), path) ==
      if At(node, path).Some? && !At(node, path).value.Other? && forall i | 0 <= i < |path| :: shouldCopy(path[i])
      then Some(Copied(At(node, path).value, shouldCopy)) else None
    decreases |path|
  {
    if path != [] && node.Dir? && path[0] in node.entries {
      var child := node.entries[AsName(node, path[0])];
      assert path == [path[0]] + path[1..];
      if child.Other? {
        OtherHasNothing(path[1..]);
      } else if shouldCopy(path[0]) {
        CopyKeepsContents(child, shouldCopy, path[1..]);
        assert (forall i | 0 <= i < |path| :: shouldCopy(path[i])) <==>
          (forall i | 0 <= i < |path[1..]| :: shouldCopy(path[1..][i]));
      }
    }
  }

  lemma OtherHasNothing(path: seq<string>)
    ensures At(Other, path).Some? ==> At(Other, path).value.Other?
  {
  }

  /** Copying a copy without a filter changes nothing. */
  lemma {:induction false} CopyingACopy(node: Node, shouldCopy: string -> bool, all: string -> bool)
    requires forall name :: all(name)
    ensures Copied(Copied(node, shouldCopy), all) == Copied(node, shouldCopy)
    decreases node
  {
    if node.Dir? {
      hide Copied;
      var copy := Copied(node, shouldCopy);
      CopiedEntries(node, shouldCopy);
      CopiedEntries(copy, all);
      forall name: Name | name in copy.entries
        ensures Copied(copy.entries[name], all) == copy.entries[name] && !copy.entries[name].Other?
      {
        CopyingACopy(node.entries[name], shouldCopy, all);
        CopyOfOther(node.entries[name], shouldCopy);
      }
      assert Copied(copy, all).entries == copy.entries;
    }
  }
}
