/** The storage root's lock file (crates/agentos-storage/src/lock.rs): the guard as one process
    sees it, and any number of processes interleaving on the one file. */
module StorageLock {
  import opened Wrappers

  datatype LockInfo = LockInfo(ownerId: string, processId: nat, acquiredAt: int, expiresAt: int)

  datatype Options = Options(ownerId: string, processId: nat, ttl: nat)

  function InfoOf(options: Options, now: int): LockInfo {
    LockInfo(options.ownerId, options.processId, now, now + options.ttl)
  }

  /** The identity `release_inner` compares. */
  predicate SameIdentity(a: LockInfo, b: LockInfo) {
    a.ownerId == b.ownerId && a.processId == b.processId && a.acquiredAt == b.acquiredAt
  }

  datatype LockError = LockAlreadyHeld(ownerId: string, expiresAt: int) | LockSerde

  /** The file: absent, not yet (or not any more) readable, or holding an owner's record. */
  datatype Content = Absent | Unreadable | Written(info: LockInfo)

  // ---------------------------------------------------------------- one process, undisturbed

  class LockPath {
    var content: Content

    constructor ()
      ensures content == Absent
    {
      content := Absent;
    }
  }

  class StorageLockGuard {
    const path: LockPath
    const info: LockInfo
    var released: bool

    constructor (path: LockPath, info: LockInfo)
      ensures this.path == path && this.info == info && !released
    {
      this.path := path;
      this.info := info;
      released := false;
    }

    /** Removes the file exactly if it can be read and names this guard's owner, process and time of
        acquisition, and the guard has not released; leaves it alone otherwise. */
    method ReleaseInner()
      modifies path
      ensures
        path.content ==
        match old(path.content)
        case Written(LockInfo(ownerId, processId, acquiredAt, _)) =>
          if !released && ownerId == info.ownerId && processId == info.processId && acquiredAt == info.acquiredAt
          then Absent else old(path.content)
        case _ => old(path.content)
    {
      if released || path.content == Absent {
        return;
      }
      match path.content {
        case Unreadable =>
        case Written(current) =>
          if current.ownerId == info.ownerId && current.processId == info.processId
            && current.acquiredAt == info.acquiredAt {
            path.content := Absent;
          }
      }
    }

    /** A second release, or the drop after a release, leaves the file alone. */
    method Release()
      modifies this, path
      ensures released
      ensures
        path.content ==
        match old(path.content)
        case Written(LockInfo(ownerId, processId, acquiredAt, _)) =>
          if !old(released) && ownerId == info.ownerId && processId == info.processId && acquiredAt == info.acquiredAt
          then Absent else old(path.content)
        case _ => old(path.content)
    {
      ReleaseInner();
      released := true;
    }
  }

  /** A lock is refused while a readable one has not expired, and for good once the file cannot
      be read; a refusal changes nothing. */
  method Acquire(path: LockPath, options: Options, now: int) returns (result: Result<StorageLockGuard, LockError>)
    modifies path
    ensures result.Ok? <==>
      match old(path.content)
      case Absent => true
      case Unreadable => false
      case Written(existing) => existing.expiresAt <= now
    ensures result.Ok? ==>
      && fresh(result.value) && result.value.path == path && !result.value.released
      && result.value.info == LockInfo(options.ownerId, options.processId, now, now + options.ttl)
      && path.content == Written(result.value.info)
    ensures result.Err? ==> path.content == old(path.content)
    ensures result.Err? ==>
      result.error == match old(path.content)
                      case Written(info) => LockAlreadyHeld(info.ownerId, info.expiresAt)
                      case _ => LockSerde
  {
    match path.content {
      case Absent =>
      case Unreadable => return Err(LockSerde);
      case Written(existing) =>
        if existing.expiresAt > now {
          return Err(LockAlreadyHeld(existing.ownerId, existing.expiresAt));
        }
        path.content := Absent;
    }
    var info := InfoOf(options, now);
    path.content := Written(info);
    var guard := new StorageLockGuard(path, info);
    return Ok(guard);
  }

  // ---------------------------------------------------------------- many processes

  /** A file created at the path; the number tells one creation from another, as an open file
      handle does. */
  datatype LockFile = LockFile(number: nat, content: Option<LockInfo>)

  /** Where a process stands. `now` is the clock reading taken when it entered `acquire`. */
  datatype Pc =
    | Idle
    | Entered(options: Options, now: int)
    | Reading(options: Options, now: int)
    | TakingOver(options: Options, now: int)
    | Creating(options: Options, now: int)
    | Colliding
    | Writing(info: LockInfo, number: nat)
    | Holding(info: LockInfo, number: nat)
    | ReleaseEntered(info: LockInfo, number: nat)
    | ReleaseReading(info: LockInfo, number: nat)
    | ReleaseRemoving(info: LockInfo, number: nat)

  datatype State = State(file: Option<LockFile>, pcs: map<nat, Pc>, now: int, created: nat)

  datatype Action =
    | Enter(w: nat, options: Options)
    | CheckExists(w: nat)
    | ReadExisting(w: nat)
    | RemoveStale(w: nat)
    | CreateNew(w: nat)
    | ReadWinner(w: nat)
    | Write(w: nat)
    | StartRelease(w: nat)
    | ReleaseCheckExists(w: nat)
    | ReleaseRead(w: nat)
    | ReleaseRemove(w: nat)
    | Abandon(w: nat)
    | Tick(elapsed: nat)

  function PcOf(s: State, w: nat): Pc {
    if w in s.pcs then s.pcs[w] else Idle
  }

  function Goto(s: State, w: nat, pc: Pc): State {
    s.(pcs := s.pcs[w := pc])
  }

  /** One step of one process; a step that is not enabled changes nothing. `Abandon` is a process
      dying or an I/O error ending its call, anywhere. */
  function Step(s: State, a: Action): State {
    match a
    case Enter(w, options) => if PcOf(s, w).Idle? then Goto(s, w, Entered(options, s.now)) else s
    case CheckExists(w) =>
      if !PcOf(s, w).Entered? then s
      else
        var pc := PcOf(s, w);
        Goto(s, w, if s.file.Some? then Reading(pc.options, pc.now) else Creating(pc.options, pc.now))
    case ReadExisting(w) =>
      if !PcOf(s, w).Reading? then s
      else
        var pc := PcOf(s, w);
        if s.file.None? || s.file.value.content.None? || s.file.value.content.value.expiresAt > pc.now
        then Goto(s, w, Idle)
        else Goto(s, w, TakingOver(pc.options, pc.now))
    case RemoveStale(w) =>
      if !PcOf(s, w).TakingOver? then s
      else Goto(s, w, Creating(PcOf(s, w).options, PcOf(s, w).now)).(file := None)
    case CreateNew(w) =>
      if !PcOf(s, w).Creating? then s
      else if s.file.Some? then Goto(s, w, Colliding)
      else
        Goto(s, w, Writing(InfoOf(PcOf(s, w).options, PcOf(s, w).now), s.created))
        .(file := Some(LockFile(s.created, None)), created := s.created + 1)
    case ReadWinner(w) => if PcOf(s, w).Colliding? then Goto(s, w, Idle) else s
    case Write(w) =>
      if !PcOf(s, w).Writing? then s
      else
        var pc := PcOf(s, w);
        var t := Goto(s, w, Holding(pc.info, pc.number));
        if s.file.Some? && s.file.value.number == pc.number
        then t.(file := Some(LockFile(pc.number, Some(pc.info))))
        else t
    case StartRelease(w) =>
      if PcOf(s, w).Holding? then Goto(s, w, ReleaseEntered(PcOf(s, w).info, PcOf(s, w).number)) else s
    case ReleaseCheckExists(w) =>
      if !PcOf(s, w).ReleaseEntered? then s
      else Goto(s, w, if s.file.Some? then ReleaseReading(PcOf(s, w).info, PcOf(s, w).number) else Idle)
    case ReleaseRead(w) =>
      if !PcOf(s, w).ReleaseReading? then s
      else
        var pc := PcOf(s, w);
        var own := s.file.Some? && s.file.value.content.Some? && SameIdentity(s.file.value.content.value, pc.info);
        Goto(s, w, if own then ReleaseRemoving(pc.info, pc.number) else Idle)
    case ReleaseRemove(w) =>
      if PcOf(s, w).ReleaseRemoving? then Goto(s, w, Idle).(file := None) else s
    case Abandon(w) => Goto(s, w, Idle)
    case Tick(elapsed) => s.(now := s.now + elapsed)
  }

  const INITIAL := State(None, map[], 0, 0)

  function Run(actions: seq<Action>): State {
    if actions == [] then INITIAL else Step(Run(actions[..|actions| - 1]), actions[|actions| - 1])
  }

  /** Between a successful create and the process's own remove. */
  predicate Inside(s: State, w: nat) {
    var pc := PcOf(s, w);
    pc.Writing? || pc.Holding? || pc.ReleaseEntered? || pc.ReleaseReading? || pc.ReleaseRemoving?
  }

  ghost predicate AtMostOneInside(s: State) {
    forall v, w | Inside(s, v) && Inside(s, w) :: v == w
  }

  // ---------------------------------------------------------------- mutual exclusion, exactly

  /** The guard of the takeover: the file is readable, and expired by the reader's clock. */
  predicate ReadsStale(s: State, w: nat) {
    && PcOf(s, w).Reading? && s.file.Some? && s.file.value.content.Some?
    && s.file.value.content.value.expiresAt <= PcOf(s, w).now
  }

  /** The two steps that bring a process inside together with one that is about to remove the file
      at the path: a process finds the lock expired while somebody is inside, or a process creates
      its lock while another, having found the previous file expired, has not removed it yet. */
  ghost predicate ExposesHolder(s: State, a: Action) {
    || (a.ReadExisting? && ReadsStale(s, a.w) && exists v :: Inside(s, v))
    || (a.CreateNew? && PcOf(s, a.w).Creating? && s.file.None? && exists w :: PcOf(s, w).TakingOver?)
  }

  ghost predicate NobodyIsExposed(actions: seq<Action>) {
    forall i | 0 <= i < |actions| :: !ExposesHolder(Run(actions[..i]), actions[i])
  }

  /** At no moment of the run are two processes inside, nor could the remove and the create of a
      takeover already decided put a second one there. */
  ghost predicate ExclusionHolds(actions: seq<Action>) {
    forall i, a, b | 0 <= i <= |actions| :: AtMostOneInside(Step(Step(Run(actions[..i]), a), b))
  }

  /** A process inside finds its own file at the path, it is alone, and nobody is about to take
      over. */
  ghost predicate Exclusive(s: State) {
    && (forall w | Inside(s, w) :: s.file.Some? && s.file.value.number == PcOf(s, w).number)
    && AtMostOneInside(s)
    && (forall v, w | Inside(s, v) :: !PcOf(s, w).TakingOver?)
  }

  /** A step moves one process at most. */
  lemma OthersStay(s: State, a: Action, v: nat)
    requires a.Tick? || a.w != v
    ensures PcOf(Step(s, a), v) == PcOf(s, v)
  {
  }

  /** A process enters only by a successful create, at an empty path. */
  lemma EntersByCreate(s: State, a: Action, v: nat)
    requires Inside(Step(s, a), v)
    ensures Inside(s, v) || (a == CreateNew(v) && PcOf(s, v).Creating? && s.file.None?)
  {
    if a.Tick? || a.w != v {
      OthersStay(s, a, v);
    }
  }

  /** A process decides to take over only by reading an expired file. */
  lemma TakesOverByReading(s: State, a: Action, w: nat)
    ensures PcOf(Step(s, a), w).TakingOver? ==> PcOf(s, w).TakingOver? || (a == ReadExisting(w) && ReadsStale(s, w))
  {
    if a.Tick? || a.w != w {
      OthersStay(s, a, w);
    }
  }

  /** While a process is inside and nobody takes over, the file at the path only changes content
      or is removed by that process. */
  lemma FileStays(s: State, a: Action, v: nat)
    requires Exclusive(s) && Inside(s, v)
    ensures
      var t := Step(s, a);
      (t.file.Some? && t.file.value.number == s.file.value.number) || (a == ReleaseRemove(v) && !Inside(t, v))
  {
    RemoverIsInside(s, a);
    assert !a.Tick? ==> !PcOf(s, a.w).TakingOver?;
  }

  lemma RemoverIsInside(s: State, a: Action)
    ensures a.ReleaseRemove? && PcOf(s, a.w).ReleaseRemoving? ==> Inside(s, a.w)
  {
  }

  lemma StaysInPlace(s: State, a: Action, v: nat)
    requires Exclusive(s) && Inside(Step(s, a), v)
    ensures Step(s, a).file.Some? && Step(s, a).file.value.number == PcOf(Step(s, a), v).number
  {
    EntersByCreate(s, a, v);
    if Inside(s, v) {
      FileStays(s, a, v);
      if a.Tick? || a.w != v {
        OthersStay(s, a, v);
      }
    }
  }

  /** One step from such a state still has at most one process inside, */
  lemma StepKeepsExclusion(s: State, a: Action)
    requires Exclusive(s)
    ensures AtMostOneInside(Step(s, a))
    ensures forall w | Inside(Step(s, a), w) ::
        Step(s, a).file.Some? && Step(s, a).file.value.number == PcOf(Step(s, a), w).number
  {
    var t := Step(s, a);
    forall v | Inside(t, v)
      ensures t.file.Some? && t.file.value.number == PcOf(t, v).number
    {
      StaysInPlace(s, a, v);
    }
    forall v, w | Inside(t, v) && Inside(t, w)
      ensures v == w
    {
      EntersByCreate(s, a, v);
      EntersByCreate(s, a, w);
    }
  }

  /** two steps too, because the only way in is an empty path, */
  lemma TwoStepsKeepExclusion(s: State, a: Action, b: Action)
    requires Exclusive(s)
    ensures AtMostOneInside(Step(Step(s, a), b))
  {
    hide Step;
    var t := Step(s, a);
    StepKeepsExclusion(s, a);
    forall v, w | Inside(Step(t, b), v) && Inside(Step(t, b), w)
      ensures v == w
    {
      EntersByCreate(t, b, v);
      EntersByCreate(t, b, w);
    }
  }

  /** and the state stays exclusive unless the step exposes a holder. */
  lemma StepKeepsExclusive(s: State, a: Action)
    requires Exclusive(s) && !ExposesHolder(s, a)
    ensures Exclusive(Step(s, a))
  {
    hide Step;
    var t := Step(s, a);
    StepKeepsExclusion(s, a);
    forall v, w | Inside(t, v)
      ensures !PcOf(t, w).TakingOver?
    {
      EntersByCreate(s, a, v);
      TakesOverByReading(s, a, w);
    }
  }

  /** A run that exposes nobody: at every moment at most one process is between its create and its
      own remove, its file is the one at the path, and nobody is about to remove it. Takeovers of
      the expired files of dead owners are part of such runs. */
  lemma {:induction false} AtMostOneHolder(actions: seq<Action>)
    requires NobodyIsExposed(actions)
    ensures Exclusive(Run(actions))
  {
    if actions != [] {
      var front := actions[..|actions| - 1];
      ExposureOfPrefix(actions, |front|);
      assert actions[..|front|] == front;
      AtMostOneHolder(front);
      StepKeepsExclusive(Run(front), actions[|actions| - 1]);
    }
  }

  lemma ExposureOfPrefix(actions: seq<Action>, k: nat)
    requires NobodyIsExposed(actions) && k <= |actions|
    ensures NobodyIsExposed(actions[..k])
    ensures k < |actions| ==> !ExposesHolder(Run(actions[..k]), actions[k])
  {
    hide ExposesHolder;
    assert forall i | 0 <= i < k :: actions[..k][..i] == actions[..i];
  }

  /** After an exposing step, the remove and the create of the takeover put two processes inside. */
  lemma ExposedHolderIsJoined(s: State, a: Action) returns (remove: Action, create: Action)
    requires ExposesHolder(s, a)
    ensures !AtMostOneInside(Step(Step(Step(s, a), remove), create))
  {
    var t := Step(s, a);
    var v: nat, w: nat;
    if a.ReadExisting? {
      v :| Inside(s, v);
      w := a.w;
    } else {
      v := a.w;
      w :| PcOf(s, w).TakingOver?;
    }
    OthersStay(s, a, if a.ReadExisting? then v else w);
    assert Inside(t, v) && PcOf(t, w).TakingOver?;
    remove, create := RemoveStale(w), CreateNew(w);
    OthersStay(t, remove, v);
    OthersStay(Step(t, remove), create, v);
    assert Inside(Step(Step(t, remove), create), v) && Inside(Step(Step(t, remove), create), w);
  }

  /** Mutual exclusion, exactly: it holds in a run if and only if no process finds the lock of a
      process inside expired, and no process creates its lock between another's reading of an
      expired file and the remove that follows it. */
  lemma MutualExclusionExactlyWhen(actions: seq<Action>)
    ensures ExclusionHolds(actions) <==> NobodyIsExposed(actions)
  {
    if NobodyIsExposed(actions) {
      forall i, a, b | 0 <= i <= |actions|
        ensures AtMostOneInside(Step(Step(Run(actions[..i]), a), b))
      {
        ExposureOfPrefix(actions, i);
        AtMostOneHolder(actions[..i]);
        TwoStepsKeepExclusion(Run(actions[..i]), a, b);
      }
    } else {
      var i :| 0 <= i < |actions| && ExposesHolder(Run(actions[..i]), actions[i]);
      var a, b := ExposedHolderIsJoined(Run(actions[..i]), actions[i]);
      assert actions[..i + 1][..i] == actions[..i];
      assert Run(actions[..i + 1]) == Step(Run(actions[..i]), actions[i]);
    }
  }

  // ---------------------------------------------------------------- disciplines that suffice

  /** A readable lock file has not reached its expiry. */
  predicate FileIsFresh(s: State) {
    s.file.Some? && s.file.value.content.Some? ==> s.file.value.content.value.expiresAt > s.now
  }

  /** No lock expires while a process is inside; files of dead owners may. */
  ghost predicate HoldersKeepTheirTtl(actions: seq<Action>) {
    forall i | 0 <= i <= |actions| :: (exists v :: Inside(Run(actions[..i]), v)) ==> FileIsFresh(Run(actions[..i]))
  }

  /** Between the call of `acquire` and its create. */
  predicate Entering(pc: Pc) {
    pc.Entered? || pc.Reading? || pc.TakingOver? || pc.Creating?
  }

  /** One process at a time is between the call of `acquire` and its create. */
  ghost predicate OneEntersAtATime(actions: seq<Action>) {
    forall i, v, w | 0 <= i <= |actions| ::
      Entering(PcOf(Run(actions[..i]), v)) && Entering(PcOf(Run(actions[..i]), w)) ==> v == w
  }

  /** No lock file at all outlives its time to live. */
  ghost predicate NoFileOutlivesItsTtl(actions: seq<Action>) {
    forall i | 0 <= i <= |actions| :: FileIsFresh(Run(actions[..i]))
  }

  /** A clock reading a process relies on is past. */
  predicate ReadingIsPast(s: State, w: nat) {
    Entering(PcOf(s, w)) ==> PcOf(s, w).now <= s.now
  }

  lemma {:induction false} ReadingsArePast(actions: seq<Action>, w: nat)
    ensures ReadingIsPast(Run(actions), w)
  {
    if actions != [] {
      var s, a := Run(actions[..|actions| - 1]), actions[|actions| - 1];
      ReadingsArePast(actions[..|actions| - 1], w);
      if a.Tick? || a.w != w {
        OthersStay(s, a, w);
      }
    }
  }

  /** If no holder's lock expires while it is inside, and processes enter one at a time, nobody is
      exposed -- however many files of dead owners are taken over. */
  lemma CarefulEntryExposesNobody(actions: seq<Action>)
    requires HoldersKeepTheirTtl(actions) && OneEntersAtATime(actions)
    ensures NobodyIsExposed(actions)
  {
    forall i | 0 <= i < |actions|
      ensures !ExposesHolder(Run(actions[..i]), actions[i])
    {
      hide Run;
      var s, a := Run(actions[..i]), actions[i];
      assert (exists v :: Inside(s, v)) ==> FileIsFresh(s);
      assert forall v, w | Entering(PcOf(s, v)) && Entering(PcOf(s, w)) :: v == w;
      if !a.Tick? {
        ReadingsArePast(actions[..i], a.w);
      }
    }
  }

  /** Nor is anybody if no lock file ever outlives its ttl: then there are no takeovers. */
  lemma FreshFilesExposeNobody(actions: seq<Action>)
    requires NoFileOutlivesItsTtl(actions)
    ensures NobodyIsExposed(actions)
  {
    forall i | 0 <= i < |actions|
      ensures !ExposesHolder(Run(actions[..i]), actions[i])
    {
      NobodyTakesOver(actions, i);
      if !actions[i].Tick? {
        ReadingsArePast(actions[..i], actions[i].w);
      }
    }
  }

  lemma {:induction false} NobodyTakesOver(actions: seq<Action>, i: nat)
    requires NoFileOutlivesItsTtl(actions) && i <= |actions|
    ensures forall w :: !PcOf(Run(actions[..i]), w).TakingOver?
  {
    if i > 0 {
      NobodyTakesOver(actions, i - 1);
      var s, a := Run(actions[..i - 1]), actions[i - 1];
      assert actions[..i][..i - 1] == actions[..i - 1];
      forall w
        ensures !PcOf(Step(s, a), w).TakingOver?
      {
        ReadingsArePast(actions[..i - 1], w);
        TakesOverByReading(s, a, w);
      }
    }
  }

  /** Nobody but `w` is inside or about to take over. */
  ghost predicate QuietBut(s: State, w: nat) {
    forall v | v != w :: !Inside(s, v) && !PcOf(s, v).TakingOver?
  }

  lemma OwnStepExposesNobody(s: State, a: Action, w: nat)
    requires QuietBut(s, w) && (a.Tick? || a.w == w)
    ensures !ExposesHolder(s, a) && QuietBut(Step(s, a), w)
  {
    forall v | v != w
      ensures !Inside(Step(s, a), v) && !PcOf(Step(s, a), v).TakingOver?
    {
      OthersStay(s, a, v);
    }
  }

  /** A process that acts alone exposes nobody, whatever it finds: so a single process takes over the
      expired file of a dead owner safely. */
  lemma {:induction false} AloneExposesNobody(actions: seq<Action>, w: nat, steps: seq<Action>)
    requires NobodyIsExposed(actions) && QuietBut(Run(actions), w)
    requires forall a | a in steps :: a.Tick? || a.w == w
    ensures NobodyIsExposed(actions + steps) && QuietBut(Run(actions + steps), w)
  {
    hide NobodyIsExposed, QuietBut, ExposesHolder, Step;
    if steps == [] {
      assert actions + steps == actions;
    } else {
      var before, a := actions + steps[..|steps| - 1], steps[|steps| - 1];
      AloneExposesNobody(actions, w, steps[..|steps| - 1]);
      assert (actions + steps)[..|before|] == before;
      assert a in steps;
      OwnStepExposesNobody(Run(before), a, w);
      OneMoreStep(actions + steps);
    }
  }

  lemma OneMoreStep(actions: seq<Action>)
    requires actions != []
    ensures
      var front := actions[..|actions| - 1];
      NobodyIsExposed(actions) <==> NobodyIsExposed(front) && !ExposesHolder(Run(front), actions[|actions| - 1])
  {
    hide ExposesHolder;
    assert forall i | 0 <= i < |actions| :: i < |actions| - 1 ==> actions[..|actions| - 1][..i] == actions[..i];
    if NobodyIsExposed(actions) {
      ExposureOfPrefix(actions, |actions| - 1);
    }
  }

  // ---------------------------------------------------------------- whose files are removed

  /** The process whose step this is created the file with this number, and is writing it or
      releasing it. */
  predicate IsOwnersStep(s: State, a: Action, number: nat) {
    || (a.Write? && PcOf(s, a.w).Writing? && PcOf(s, a.w).number == number)
    || (a.ReleaseRemove? && PcOf(s, a.w).ReleaseRemoving? && PcOf(s, a.w).number == number)
  }

  lemma OnlyOwnersChangeTheFile(s: State, a: Action)
    requires Exclusive(s) && s.file.Some? && Step(s, a).file != s.file
    ensures IsOwnersStep(s, a, s.file.value.number) || (a.RemoveStale? && forall v :: !Inside(s, v))
  {
    assert !a.Tick? && PcOf(s, a.w).ReleaseRemoving? ==> Inside(s, a.w);
  }

  /** In a run that exposes nobody, a lock file is changed or removed by its creator alone, or
      taken over when nobody is inside: no release, drop or takeover touches the file of another
      guard. */
  lemma FilesAreRemovedByTheirOwners(actions: seq<Action>, a: Action)
    requires NobodyIsExposed(actions)
    requires Run(actions).file.Some? && Run(actions + [a]).file != Run(actions).file
    ensures
      || IsOwnersStep(Run(actions), a, Run(actions).file.value.number)
      || (a.RemoveStale? && forall v :: !Inside(Run(actions), v))
  {
    hide Step, Exclusive, Inside, IsOwnersStep, NobodyIsExposed;
    assert (actions + [a])[..|actions|] == actions;
    AtMostOneHolder(actions);
    OnlyOwnersChangeTheFile(Run(actions), a);
  }

  /** In a run that exposes somebody a release may remove a later file, but never one that it has not
      read as its own: a process about to remove the file at the path has read there, in a step of its
      release, a record with its guard's owner, process and time of acquisition. */
  lemma {:induction false} RemovesOnlyWhatItReadAsItsOwn(actions: seq<Action>, w: nat)
    requires PcOf(Run(actions), w).ReleaseRemoving?
    ensures exists i | 0 <= i < |actions| ::
              actions[i] == ReleaseRead(w) && ReadsRecordOf(Run(actions[..i]), PcOf(Run(actions), w).info)
  {
    var n := |actions| - 1;
    var s, a := Run(actions[..n]), actions[n];
    if a == ReleaseRead(w) && PcOf(s, w).ReleaseReading? {
      assert ReadsRecordOf(s, PcOf(Run(actions), w).info);
    } else {
      if a.Tick? || a.w != w {
        OthersStay(s, a, w);
      }
      assert PcOf(s, w) == PcOf(Run(actions), w);
      RemovesOnlyWhatItReadAsItsOwn(actions[..n], w);
      var i :| 0 <= i < n && actions[..n][i] == ReleaseRead(w) &&
        ReadsRecordOf(Run(actions[..n][..i]), PcOf(s, w).info);
      assert actions[..n][..i] == actions[..i];
    }
  }

  /** The file at the path can be read and has this owner, process and time of acquisition. */
  predicate ReadsRecordOf(s: State, info: LockInfo) {
    && s.file.Some? && s.file.value.content.Some?
    && s.file.value.content.value.ownerId == info.ownerId
    && s.file.value.content.value.processId == info.processId
    && s.file.value.content.value.acquiredAt == info.acquiredAt
  }

  // ---------------------------------------------------------------- how it fails

  function StepAll(s: State, actions: seq<Action>): State
    decreases |actions|
  {
    if actions == [] then s else StepAll(Step(s, actions[0]), actions[1..])
  }

  lemma {:induction false} StepAllSplits(s: State, first: seq<Action>, second: seq<Action>)
    ensures StepAll(s, first + second) == StepAll(StepAll(s, first), second)
    decreases |first|
  {
    if first == [] {
      assert first + second == second;
    } else {
      assert (first + second)[1..] == first[1..] + second;
      StepAllSplits(Step(s, first[0]), first[1..], second);
    }
  }

  /** From any state in which a holder's file has expired, five steps of an idle process put two
      processes inside. */
  lemma ExpiredHolderCanBeOvertaken(s: State, holder: nat, w: nat, options: Options)
    requires Inside(s, holder) && PcOf(s, w).Idle?
    requires s.file.Some? && s.file.value.content.Some? && !FileIsFresh(s)
    ensures
      var t := StepAll(s, [Enter(w, options), CheckExists(w), ReadExisting(w), RemoveStale(w), CreateNew(w)]);
      Inside(t, holder) && Inside(t, w) && holder != w
  {
    var s1 := Step(s, Enter(w, options));
    var s2 := Step(s1, CheckExists(w));
    var s3 := Step(s2, ReadExisting(w));
    var s4 := Step(s3, RemoveStale(w));
    var s5 := Step(s4, CreateNew(w));
    assert PcOf(s5, holder) == PcOf(s, holder) && PcOf(s5, w).Writing?;
    calc {
      StepAll(s, [Enter(w, options), CheckExists(w), ReadExisting(w), RemoveStale(w), CreateNew(w)]);
      StepAll(s1, [CheckExists(w), ReadExisting(w), RemoveStale(w), CreateNew(w)]);
      StepAll(s2, [ReadExisting(w), RemoveStale(w), CreateNew(w)]);
      StepAll(s3, [RemoveStale(w), CreateNew(w)]);
      StepAll(s4, [CreateNew(w)]);
      s5;
    }
  }

  /** Two idle processes both read an expired file as stale. */
  lemma BothReadStale(s: State, v: nat, w: nat, options: Options)
    requires v != w && PcOf(s, v).Idle? && PcOf(s, w).Idle?
    requires s.file.Some? && s.file.value.content.Some? && !FileIsFresh(s)
    ensures
      var t := StepAll(s, [Enter(v, options), CheckExists(v), ReadExisting(v), Enter(w, options), CheckExists(w),
        ReadExisting(w)]);
      && PcOf(t, v) == PcOf(t, w) == TakingOver(options, s.now)
      && t.now == s.now && t.file == s.file && t.created == s.created
  {
    var s1 := Step(s, Enter(v, options));
    var s2 := Step(s1, CheckExists(v));
    var s3 := Step(s2, ReadExisting(v));
    var s4 := Step(s3, Enter(w, options));
    var s5 := Step(s4, CheckExists(w));
    var s6 := Step(s5, ReadExisting(w));
    calc {
      StepAll(s, [Enter(v, options), CheckExists(v), ReadExisting(v), Enter(w, options), CheckExists(w),
        ReadExisting(w)]);
      StepAll(s1, [CheckExists(v), ReadExisting(v), Enter(w, options), CheckExists(w), ReadExisting(w)]);
      StepAll(s2, [ReadExisting(v), Enter(w, options), CheckExists(w), ReadExisting(w)]);
      StepAll(s3, [Enter(w, options), CheckExists(w), ReadExisting(w)]);
      StepAll(s4, [CheckExists(w), ReadExisting(w)]);
      StepAll(s5, [ReadExisting(w)]);
      s6;
    }
  }

  /** One of them takes over, creates and writes its lock; the other then removes that lock, which
      has not expired, and creates its own. */
  lemma SecondTakeoverRemovesTheFirst(s: State, v: nat, w: nat, options: Options)
    requires v != w && options.ttl > 0
    requires PcOf(s, v) == PcOf(s, w) == TakingOver(options, s.now)
    ensures
      var held := StepAll(s, [RemoveStale(v), CreateNew(v), Write(v)]);
      && PcOf(held, v).Holding? && FileIsFresh(held)
      && held.file.Some? && held.file.value.content == Some(InfoOf(options, s.now))
      && PcOf(held, w) == TakingOver(options, s.now)
      && Inside(StepAll(held, [RemoveStale(w), CreateNew(w)]), v)
      && Inside(StepAll(held, [RemoveStale(w), CreateNew(w)]), w)
  {
    var s1 := Step(s, RemoveStale(v));
    var s2 := Step(s1, CreateNew(v));
    var s3 := Step(s2, Write(v));
    var s4 := Step(s3, RemoveStale(w));
    var s5 := Step(s4, CreateNew(w));
    assert StepAll(s3, [RemoveStale(w), CreateNew(w)]) == s5 by {
      assert StepAll(s4, [CreateNew(w)]) == s5;
    }
    calc {
      StepAll(s, [RemoveStale(v), CreateNew(v), Write(v)]);
      StepAll(s1, [CreateNew(v), Write(v)]);
      StepAll(s2, [Write(v)]);
      s3;
    }
  }

  /** The race of two takeovers, from any state with an expired readable file and any two idle
      processes: both end up inside, although no lock of a process inside has expired. */
  lemma StaleTakeoverRace(s: State, v: nat, w: nat, options: Options)
    requires v != w && options.ttl > 0 && PcOf(s, v).Idle? && PcOf(s, w).Idle?
    requires s.file.Some? && s.file.value.content.Some? && !FileIsFresh(s)
    ensures
      var looks := [Enter(v, options), CheckExists(v), ReadExisting(v), Enter(w, options), CheckExists(w),
        ReadExisting(w)];
      var held := StepAll(s, looks + [RemoveStale(v), CreateNew(v), Write(v)]);
      var t := StepAll(held, [RemoveStale(w), CreateNew(w)]);
      PcOf(held, v).Holding? && FileIsFresh(held) && Inside(t, v) && Inside(t, w)
  {
    hide StepAll, Step;
    var looks := [Enter(v, options), CheckExists(v), ReadExisting(v), Enter(w, options), CheckExists(w),
      ReadExisting(w)];
    BothReadStale(s, v, w, options);
    SecondTakeoverRemovesTheFirst(StepAll(s, looks), v, w, options);
    StepAllSplits(s, looks, [RemoveStale(v), CreateNew(v), Write(v)]);
  }

  lemma {:induction false} RunIsStepAll(actions: seq<Action>)
    ensures Run(actions) == StepAll(INITIAL, actions)
  {
    if actions != [] {
      var front, last := actions[..|actions| - 1], actions[|actions| - 1];
      RunIsStepAll(front);
      StepAllSplits(INITIAL, front, [last]);
      assert actions == front + [last];
      assert StepAll(Run(front), [last]) == Step(Run(front), last);
    }
  }

  /** Such a state is reached as soon as an owner dies inside: its file expires. */
  lemma DeadOwnersFileExpires(owner: nat, options: Options)
    ensures
      var s := Run([Enter(owner, options), CheckExists(owner), CreateNew(owner), Write(owner), Abandon(owner),
        Tick(options.ttl)]);
      && (forall w :: PcOf(s, w).Idle?)
      && s.file.Some? && s.file.value.content.Some? && !FileIsFresh(s)
  {
    var s1 := Step(INITIAL, Enter(owner, options));
    var s2 := Step(s1, CheckExists(owner));
    var s3 := Step(s2, CreateNew(owner));
    var s4 := Step(s3, Write(owner));
    var s5 := Step(s4, Abandon(owner));
    var s6 := Step(s5, Tick(options.ttl));
    var actions := [Enter(owner, options), CheckExists(owner), CreateNew(owner), Write(owner), Abandon(owner),
      Tick(options.ttl)];
    RunIsStepAll(actions);
    calc {
      StepAll(INITIAL, actions);
      StepAll(s1, [CheckExists(owner), CreateNew(owner), Write(owner), Abandon(owner), Tick(options.ttl)]);
      StepAll(s2, [CreateNew(owner), Write(owner), Abandon(owner), Tick(options.ttl)]);
      StepAll(s3, [Write(owner), Abandon(owner), Tick(options.ttl)]);
      StepAll(s4, [Abandon(owner), Tick(options.ttl)]);
      StepAll(s5, [Tick(options.ttl)]);
      s6;
    }
  }

  // ---------------------------------------------------------------- the steps, undisturbed

  /** Run without interruption, the steps of `acquire` are the `Acquire` above. */
  lemma AcquireAlone(s: State, w: nat, options: Options)
    requires PcOf(s, w).Idle?
    ensures
      var t := StepAll(s, [Enter(w, options), CheckExists(w), ReadExisting(w), RemoveStale(w), CreateNew(w), Write(w)]);
      var info := LockInfo(options.ownerId, options.processId, s.now, s.now + options.ttl);
      if s.file.None? || (s.file.value.content.Some? && s.file.value.content.value.expiresAt <= s.now)
      then PcOf(t, w) == Holding(info, s.created) && t.file == Some(LockFile(s.created, Some(info)))
      else PcOf(t, w) == Idle && t.file == s.file
  {
    var s4 := StepAll(s, [Enter(w, options), CheckExists(w), ReadExisting(w), RemoveStale(w)]);
    var s5 := Step(s4, CreateNew(w));
    var s6 := Step(s5, Write(w));
    AcquireLooks(s, w, options);
    StepAllSplits(s, [Enter(w, options), CheckExists(w), ReadExisting(w), RemoveStale(w)], [CreateNew(w), Write(w)]);
    assert [Enter(w, options), CheckExists(w), ReadExisting(w), RemoveStale(w)] + [CreateNew(w), Write(w)] ==
           [Enter(w, options), CheckExists(w), ReadExisting(w), RemoveStale(w), CreateNew(w), Write(w)];
    assert StepAll(s4, [CreateNew(w), Write(w)]) == s6 by {
      assert StepAll(s5, [Write(w)]) == s6;
    }
  }

  /** What `acquire` finds, and does about it before it creates its file. */
  lemma AcquireLooks(s: State, w: nat, options: Options)
    requires PcOf(s, w).Idle?
    ensures
      var t := StepAll(s, [Enter(w, options), CheckExists(w), ReadExisting(w), RemoveStale(w)]);
      && t.created == s.created
      && if s.file.None? || (s.file.value.content.Some? && s.file.value.content.value.expiresAt <= s.now)
         then t.file == None && PcOf(t, w) == Creating(options, s.now)
         else t.file == s.file && PcOf(t, w) == Idle
  {
    var s1 := Step(s, Enter(w, options));
    var s2 := Step(s1, CheckExists(w));
    var s3 := Step(s2, ReadExisting(w));
    var s4 := Step(s3, RemoveStale(w));
    calc {
      StepAll(s, [Enter(w, options), CheckExists(w), ReadExisting(w), RemoveStale(w)]);
      StepAll(s1, [CheckExists(w), ReadExisting(w), RemoveStale(w)]);
      StepAll(s2, [ReadExisting(w), RemoveStale(w)]);
      StepAll(s3, [RemoveStale(w)]);
      s4;
    }
  }

  /** And the steps of a release are `ReleaseInner`: the file is gone exactly if it can be read and
      names the guard's owner, process and time of acquisition. */
  lemma ReleaseAlone(s: State, w: nat)
    requires PcOf(s, w).Holding?
    ensures
      var t := StepAll(s, [StartRelease(w), ReleaseCheckExists(w), ReleaseRead(w), ReleaseRemove(w)]);
      var info := PcOf(s, w).info;
      && PcOf(t, w) == Idle
      && t.file ==
         match s.file
         case Some(LockFile(_, Some(LockInfo(ownerId, processId, acquiredAt, _)))) =>
           if ownerId == info.ownerId && processId == info.processId && acquiredAt == info.acquiredAt
           then None else s.file
         case _ => s.file
  {
    var s1 := Step(s, StartRelease(w));
    var s2 := Step(s1, ReleaseCheckExists(w));
    var s3 := Step(s2, ReleaseRead(w));
    var s4 := Step(s3, ReleaseRemove(w));
    calc {
      StepAll(s, [StartRelease(w), ReleaseCheckExists(w), ReleaseRead(w), ReleaseRemove(w)]);
      StepAll(s1, [ReleaseCheckExists(w), ReleaseRead(w), ReleaseRemove(w)]);
      StepAll(s2, [ReleaseRead(w), ReleaseRemove(w)]);
      StepAll(s3, [ReleaseRemove(w)]);
      s4;
    }
  }
}
