/** Profile inheritance (crates/agentos-config/src/lib.rs): following `extends` from a profile to
    its root, with cycle detection. Only each profile's `extends` matters here. */
module Profiles {
  import opened Wrappers

  /** Profile names, each with the profile it extends. */
  type Parents = map<string, Option<string>>

  datatype ProfileError = ProfileNotFound(profile: string) | ProfileCycle(profileChain: seq<string>)

  /** The names met when following `extends` from a profile, as far as one cares to follow. */
  ghost predicate IsWalk(parents: Parents, from: string, walk: seq<string>) {
    && walk != [] && walk[0] == from
    && forall i | 0 <= i < |walk| - 1 :: Leads(parents, walk[i], walk[i + 1])
  }

  predicate Leads(parents: Parents, name: string, next: string) {
    name in parents && parents[name] == Some(next)
  }

  ghost predicate Distinct(names: seq<string>) {
    forall i, j | 0 <= i < j < |names| :: names[i] != names[j]
  }

  function Reversed(names: seq<string>): (r: seq<string>)
    ensures |r| == |names|
    ensures forall i | 0 <= i < |r| :: r[i] == names[|names| - 1 - i]
  {
    if names == [] then [] else [names[|names| - 1]] + Reversed(names[..|names| - 1])
  }

  /** A walk that ends at a profile extending nothing: */
  ghost predicate ReachesRoot(parents: Parents, from: string, walk: seq<string>) {
    IsWalk(parents, from, walk) && walk[|walk| - 1] in parents && parents[walk[|walk| - 1]].None?
  }

  /** at a name no profile has: */
  ghost predicate ReachesMissing(parents: Parents, from: string, walk: seq<string>) {
    IsWalk(parents, from, walk) && walk[|walk| - 1] !in parents
  }

  /** or for the first time at a name it has met before, `start` names into it. */
  ghost predicate ReachesCycle(parents: Parents, from: string, walk: seq<string>, start: nat) {
    && IsWalk(parents, from, walk)
    && start < |walk| - 1 && walk[start] == walk[|walk| - 1]
    && Distinct(walk[..|walk| - 1])
  }

  /** A result and the walk it reports. */
  ghost predicate Explains(parents: Parents, from: string, result: Result<seq<string>, ProfileError>,
                           walk: seq<string>)
  {
    match result
    case Ok(chain) => ReachesRoot(parents, from, walk) && Distinct(walk) && chain == Reversed(walk)
    case Err(ProfileNotFound(name)) => ReachesMissing(parents, from, walk) && Distinct(walk) && name == walk[|walk| - 1]
    case Err(ProfileCycle(cycle)) =>
      exists start | 0 <= start < |walk| :: ReachesCycle(parents, from, walk, start) && cycle == walk[start..]
  }

  // ---------------------------------------------------------------- walks are determined

  lemma WalkGoesOn(parents: Parents, from: string, walk: seq<string>, i: int)
    requires IsWalk(parents, from, walk)
    ensures 0 <= i && i + 1 < |walk| ==> Leads(parents, walk[i], walk[i + 1])
  {
  }

  lemma DistinctAt(names: seq<string>, i: int, j: int)
    requires Distinct(names)
    ensures 0 <= i < |names| && 0 <= j < |names| && names[i] == names[j] ==> i == j
  {
  }

  lemma {:induction false} WalksAgree(parents: Parents, from: string, a: seq<string>, b: seq<string>, i: nat)
    requires IsWalk(parents, from, a) && IsWalk(parents, from, b) && i < |a| && i < |b|
    ensures a[i] == b[i]
  {
    if i > 0 {
      WalksAgree(parents, from, a, b, i - 1);
      WalkGoesOn(parents, from, a, i - 1);
      WalkGoesOn(parents, from, b, i - 1);
    }
  }

  /** From equal names a walk continues equally. */
  lemma {:induction false} EqualNamesContinueEqually(parents: Parents, from: string, walk: seq<string>, i: nat,
                                                     j: nat, d: nat)
    requires IsWalk(parents, from, walk) && i < j && j + d < |walk|
    ensures walk[i] == walk[j] ==> walk[i + d] == walk[j + d]
    decreases d
  {
    if d > 0 {
      EqualNamesContinueEqually(parents, from, walk, i, j, d - 1);
      WalkGoesOn(parents, from, walk, i + d - 1);
      WalkGoesOn(parents, from, walk, j + d - 1);
    }
  }

  ghost predicate IsStuck(parents: Parents, name: string) {
    name !in parents || parents[name].None?
  }

  /** A walk that cannot go on has met no name twice, */
  lemma StuckWalkIsDistinct(parents: Parents, from: string, walk: seq<string>)
    requires IsWalk(parents, from, walk) && IsStuck(parents, walk[|walk| - 1])
    ensures Distinct(walk)
  {
    forall i, j | 0 <= i < j < |walk|
      ensures walk[i] != walk[j]
    {
      var d := |walk| - 1 - j;
      EqualNamesContinueEqually(parents, from, walk, i, j, d);
      WalkGoesOn(parents, from, walk, i + d);
    }
  }

  /** and every other walk is a beginning of it. */
  lemma StuckWalkIsLongest(parents: Parents, from: string, stuck: seq<string>, walk: seq<string>)
    requires IsWalk(parents, from, stuck) && IsStuck(parents, stuck[|stuck| - 1])
    requires IsWalk(parents, from, walk)
    ensures |walk| <= |stuck| && forall i | 0 <= i < |walk| :: walk[i] == stuck[i]
  {
    forall i | 0 <= i < |walk| && i < |stuck|
      ensures walk[i] == stuck[i]
    {
      WalksAgree(parents, from, walk, stuck, i);
    }
    WalkGoesOn(parents, from, walk, |stuck| - 1);
  }

  lemma NoRootAndMissing(parents: Parents, from: string, a: seq<string>, b: seq<string>)
    ensures !(ReachesRoot(parents, from, a) && ReachesMissing(parents, from, b))
  {
    if ReachesRoot(parents, from, a) && IsWalk(parents, from, b) && IsStuck(parents, b[|b| - 1]) {
      StuckWalkIsLongest(parents, from, a, b);
      StuckWalkIsLongest(parents, from, b, a);
    }
  }

  lemma NoStuckWalkAndCycle(parents: Parents, from: string, a: seq<string>, b: seq<string>, start: nat)
    requires IsWalk(parents, from, a) && IsStuck(parents, a[|a| - 1])
    ensures !ReachesCycle(parents, from, b, start)
  {
    if IsWalk(parents, from, b) {
      StuckWalkIsLongest(parents, from, a, b);
      StuckWalkIsDistinct(parents, from, a);
      DistinctAt(a, start, |b| - 1);
    }
  }

  /** The three outcomes exclude one another. */
  lemma OutcomesExcludeOneAnother(parents: Parents, from: string, a: seq<string>, b: seq<string>)
    ensures !(ReachesRoot(parents, from, a) && ReachesMissing(parents, from, b))
    ensures forall start: nat | ReachesCycle(parents, from, b, start) ::
        !ReachesRoot(parents, from, a) && !ReachesMissing(parents, from, a)
  {
    NoRootAndMissing(parents, from, a, b);
    forall start: nat
      ensures ReachesCycle(parents, from, b, start) ==>
                !ReachesRoot(parents, from, a) && !ReachesMissing(parents, from, a)
    {
      if IsWalk(parents, from, a) && IsStuck(parents, a[|a| - 1]) {
        NoStuckWalkAndCycle(parents, from, a, b, start);
      }
    }
  }

  lemma CycleClosesOnce(parents: Parents, from: string, a: seq<string>, i: nat, b: seq<string>, j: nat)
    requires ReachesCycle(parents, from, a, i) && ReachesCycle(parents, from, b, j)
    ensures |b| <= |a|
  {
    forall k | 0 <= k < |a| && k < |b|
      ensures a[k] == b[k]
    {
      WalksAgree(parents, from, a, b, k);
    }
    DistinctAt(b[..|b| - 1], i, |a| - 1);
  }

  lemma SameCycle(parents: Parents, from: string, a: seq<string>, i: nat, b: seq<string>, j: nat)
    requires ReachesCycle(parents, from, a, i) && ReachesCycle(parents, from, b, j)
    ensures a == b && i == j
  {
    CycleClosesOnce(parents, from, a, i, b, j);
    CycleClosesOnce(parents, from, b, j, a, i);
    forall k | 0 <= k < |a|
      ensures a[k] == b[k]
    {
      WalksAgree(parents, from, a, b, k);
    }
    DistinctAt(a[..|a| - 1], i, j);
  }

  lemma SameStuckWalk(parents: Parents, from: string, a: seq<string>, b: seq<string>)
    requires IsWalk(parents, from, a) && IsStuck(parents, a[|a| - 1])
    requires IsWalk(parents, from, b) && IsStuck(parents, b[|b| - 1])
    ensures a == b
  {
    StuckWalkIsLongest(parents, from, a, b);
    StuckWalkIsLongest(parents, from, b, a);
  }

  /** So the result is determined by the document: any two results that each explain themselves by
      a walk are equal. */
  lemma ExplanationIsUnique(parents: Parents, from: string, r: Result<seq<string>, ProfileError>, a: seq<string>,
                            s: Result<seq<string>, ProfileError>, b: seq<string>)
    requires Explains(parents, from, r, a) && Explains(parents, from, s, b)
    ensures r == s && a == b
  {
    OutcomesExcludeOneAnother(parents, from, a, b);
    OutcomesExcludeOneAnother(parents, from, b, a);
    if r.Err? && r.error.ProfileCycle? {
      var i: nat :| i < |a| && ReachesCycle(parents, from, a, i) && r.error.profileChain == a[i..];
      assert s.Err? && s.error.ProfileCycle?;
      var j: nat :| j < |b| && ReachesCycle(parents, from, b, j) && s.error.profileChain == b[j..];
      SameCycle(parents, from, a, i, b, j);
    } else {
      assert !(s.Err? && s.error.ProfileCycle?);
      SameStuckWalk(parents, from, a, b);
    }
  }

  // ---------------------------------------------------------------- the recursion

  method Position(names: seq<string>, name: string) returns (index: Option<nat>)
    ensures index.None? ==> name !in names
    ensures index.Some? ==> index.value < |names| && names[index.value] == name
  {
    for i := 0 to |names|
      invariant name !in names[..i]
    {
      if names[i] == name {
        return Some(i);
      }
    }
    return None;
  }

  /** A name already visited closes a cycle. */
  lemma VisitedNameClosesCycle(parents: Parents, from: string, visiting: seq<string>, profile: string, index: nat)
    requires IsWalk(parents, from, visiting + [profile]) && Distinct(visiting)
    requires index < |visiting| && visiting[index] == profile
    ensures Explains(parents, from, Err(ProfileCycle(visiting[index..] + [profile])), visiting + [profile])
  {
    var met := visiting + [profile];
    assert met[..|met| - 1] == visiting;
    assert met[index..] == visiting[index..] + [profile];
    assert ReachesCycle(parents, from, met, index);
  }

  /** Otherwise the walk so far is distinct; it ends here, or goes on to the parent. */
  lemma WalkContinues(parents: Parents, from: string, visiting: seq<string>, profile: string)
    requires IsWalk(parents, from, visiting + [profile]) && Distinct(visiting) && profile !in visiting
    ensures Distinct(visiting + [profile])
    ensures profile !in parents ==> Explains(parents, from, Err(ProfileNotFound(profile)), visiting + [profile])
    ensures profile in parents && parents[profile].None? ==>
        Explains(parents, from, Ok([profile] + Reversed(visiting)), visiting + [profile])
    ensures profile in parents && parents[profile].Some? ==>
        IsWalk(parents, from, visiting + [profile] + [parents[profile].value])
  {
    var met := visiting + [profile];
    assert met[..|met| - 1] == visiting;
    assert Reversed(met) == [profile] + Reversed(visiting);
    if profile in parents && parents[profile].Some? {
      var longer := met + [parents[profile].value];
      forall i | 0 <= i < |longer| - 1
        ensures Leads(parents, longer[i], longer[i + 1])
      {
        WalkGoesOn(parents, from, met, i);
      }
    }
  }

  /** `visiting` holds the names met on the way from `from`; on success it is left as it was, and
      the chain is the rest of the walk, parents first. */
  method ResolveChain(parents: Parents, profile: string, visiting: seq<string>, ghost from: string)
    returns (result: Result<seq<string>, ProfileError>, visitingAfter: seq<string>, ghost walk: seq<string>)
    requires IsWalk(parents, from, visiting + [profile]) && Distinct(visiting)
    ensures visiting + [profile] <= walk
    ensures result.Ok? ==>
              visitingAfter == visiting && Explains(parents, from, Ok(result.value + Reversed(visiting)), walk)
    ensures result.Err? ==> Explains(parents, from, result, walk)
    decreases parents.Keys - (set name | name in visiting)
  {
    hide Explains, IsWalk, Distinct, Reversed;
    var index := Position(visiting, profile);
    if index.Some? {
      VisitedNameClosesCycle(parents, from, visiting, profile, index.value);
      return Err(ProfileCycle(visiting[index.value..] + [profile])), visiting, visiting + [profile];
    }
    WalkContinues(parents, from, visiting, profile);
    if profile !in parents {
      return Err(ProfileNotFound(profile)), visiting, visiting + [profile];
    }
    visitingAfter := visiting + [profile];
    walk := visitingAfter;
    var chain: seq<string> := [];
    if parents[profile].Some? {
      var parent := parents[profile].value;
      assert (set name | name in visitingAfter) == (set name | name in visiting) + {profile};
      var above;
      above, visitingAfter, walk := ResolveChain(parents, parent, visitingAfter, from);
      assert visiting + [profile] <= visiting + [profile] + [parent];
      if above.Err? {
        return above, visitingAfter, walk;
      }
      chain := above.value;
    }
    ReversedPush(chain, visiting, profile);
    visitingAfter := visitingAfter[..|visitingAfter| - 1];
    chain := chain + [profile];
    return Ok(chain), visitingAfter, walk;
  }

  lemma ReversedPush(chain: seq<string>, visiting: seq<string>, profile: string)
    ensures chain + Reversed(visiting + [profile]) == chain + [profile] + Reversed(visiting)
    ensures [] + [profile] + Reversed(visiting) == [profile] + Reversed(visiting)
  {
    assert Reversed(visiting + [profile]) == [profile] + Reversed(visiting);
  }

  /** The result is the one the document's `extends` walk explains; there is no other. */
  method ResolveProfileChain(parents: Parents, profile: string)
    returns (result: Result<seq<string>, ProfileError>, ghost walk: seq<string>)
    ensures Explains(parents, profile, result, walk)
    ensures forall r, w :: Explains(parents, profile, r, w) ==> r == result
  {
    assert [] + [profile] == [profile];
    var visiting;
    result, visiting, walk := ResolveChain(parents, profile, [], profile);
    assert result.Ok? ==> result.value + Reversed([]) == result.value;
    forall r, w | Explains(parents, profile, r, w)
      ensures r == result
    {
      ExplanationIsUnique(parents, profile, r, w, result, walk);
    }
  }

  // ---------------------------------------------------------------- what the outcomes mean

  /** A chain ends at the request, starts at a profile without a parent, puts every parent right
      before its child, and repeats nothing. */
  ghost predicate IsInheritanceChain(parents: Parents, profile: string, chain: seq<string>) {
    && chain != [] && chain[|chain| - 1] == profile
    && chain[0] in parents && parents[chain[0]].None?
    && (forall i | 0 < i < |chain| :: Leads(parents, chain[i], chain[i - 1]))
    && Distinct(chain)
  }

  lemma ReversedTwice(names: seq<string>)
    ensures Reversed(Reversed(names)) == names
  {
  }

  lemma ReversedLinks(parents: Parents, names: seq<string>)
    ensures (forall i | 0 <= i < |names| - 1 :: Leads(parents, names[i], names[i + 1])) <==>
            (forall i | 0 < i < |Reversed(names)| :: Leads(parents, Reversed(names)[i], Reversed(names)[i - 1]))
  {
    var r := Reversed(names);
    if forall i | 0 <= i < |names| - 1 :: Leads(parents, names[i], names[i + 1]) {
      forall i | 0 < i < |r|
        ensures Leads(parents, r[i], r[i - 1])
      {
        assert Leads(parents, names[|names| - 1 - i], names[|names| - 1 - i + 1]);
      }
    }
    if forall i | 0 < i < |r| :: Leads(parents, r[i], r[i - 1]) {
      forall i | 0 <= i < |names| - 1
        ensures Leads(parents, names[i], names[i + 1])
      {
        assert Leads(parents, r[|r| - 1 - i], r[|r| - 1 - i - 1]);
      }
    }
  }

  lemma ReversedDistinct(names: seq<string>)
    requires Distinct(names)
    ensures Distinct(Reversed(names))
  {
    var r := Reversed(names);
    forall i, j | 0 <= i < j < |r|
      ensures r[i] != r[j]
    {
      assert names[|names| - 1 - j] != names[|names| - 1 - i];
    }
  }

  /** The chain exists exactly when resolving gives it. */
  lemma ChainIsResolved(parents: Parents, profile: string, chain: seq<string>)
    ensures IsInheritanceChain(parents, profile, chain) <==> Explains(parents, profile, Ok(chain), Reversed(chain))
  {
    hide Distinct, Leads;
    var walk := Reversed(chain);
    ReversedTwice(chain);
    ReversedLinks(parents, walk);
    if Distinct(chain) {
      ReversedDistinct(chain);
    }
    if Distinct(walk) {
      ReversedDistinct(walk);
    }
  }

  /** A reported cycle is one: it starts and ends at the same profile, each name extends the next,
      and nothing else repeats in it. */
  lemma ReportedCycleIsGenuine(parents: Parents, profile: string, cycle: seq<string>, walk: seq<string>)
    requires Explains(parents, profile, Err(ProfileCycle(cycle)), walk)
    ensures |cycle| >= 2 && cycle[0] == cycle[|cycle| - 1]
    ensures forall i | 0 <= i < |cycle| - 1 :: Leads(parents, cycle[i], cycle[i + 1])
    ensures Distinct(cycle[..|cycle| - 1])
    ensures cycle[0] in walk && walk[0] == profile
  {
    var start :| 0 <= start < |walk| && ReachesCycle(parents, profile, walk, start) && cycle == walk[start..];
    forall i | 0 <= i < |cycle| - 1
      ensures Leads(parents, cycle[i], cycle[i + 1])
    {
      assert Leads(parents, walk[start + i], walk[start + i + 1]);
    }
    assert forall i | 0 <= i < |cycle| - 1 :: cycle[i] == walk[..|walk| - 1][start + i];
  }
}
