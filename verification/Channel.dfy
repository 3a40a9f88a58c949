/**
 One release channel of the installer (scripts/install-channel.mjs): the release directories,
 the `current` and `previous` links, the replayable transaction record, the launch leases and
 the launch/GC guard, used by any number of guarded runners and by one installer at a time.

 Every action is one access to shared state or one decision of one process. Any process may crash between
 any two actions, and every operation of the installer may fail and throw. Accesses are merged only where
 nobody else can come between them: the links and the record are written under the installer lock, and a
 complete lease never changes, so reading it and probing its process is one action.
 */
module Channel {
  import opened Common
  import Guard

  type Proc = Guard.Proc

  type Rel = nat // a commit; the name of its release directory

  // How far a release tree has been built. Only a synced tree is ever renamed into place.
  datatype Built = Created | Unpacked | Installed | Verified | Described | Synced

  datatype Release = Release(built: Built, marked: bool) // marked: `.cc-unguarded-launch` present

  datatype Lease = Torn | Complete

  datatype Pair = Pair(current: Option<Rel>, previous: Option<Rel>)

  datatype Record = Record(desiredCurrent: Rel, desiredPrevious: Option<Rel>)

  datatype Launch =
    | Starting           // before or inside the guard, nothing resolved yet
    | Resolved(rel: Rel) // realpath(current) taken
    | Leasing(rel: Rel)  // lease file created, not yet complete
    | Leased(rel: Rel)   // lease complete; the guard may still be held
    | Running(rel: Rel)  // the release's entry point is executing
    | Failed             // startup failed or the process is done; it will only clean up and end

  datatype Task = Install(rel: Rel) | Rollback

  // What the installer does once a replay has completed.
  datatype Goal = ThenTask(task: Task) | ThenPrune | ThenEnd

  datatype Phase =
    | Idle // no live installer
    | Began(task: Task)
    | Acting(task: Task) // no record is pending
    | Building(rel: Rel, built: Built)
    | Promoting(rel: Rel)
    | Noted(rel: Rel, prior: Option<Rel>) // promotion has read `current`
    | Publishing // record written; runner and launcher are being replaced
    | Swapping(current: Rel, previous: Rel) // rollback has read both links
    | Queued(goal: Goal) // record validated; waiting for the guard
    | ReplayCurrent(goal: Goal)
    | ReplayPrevious(goal: Goal)
    | ReplayForget(goal: Goal)
    | Leaving(goal: Goal, ok: bool)
    | PruneQueued
    | PruneReading
    | PruneScanning(protected: set<Rel>, todo: set<Rel>)
    | PruneLeases(protected: set<Rel>, todo: set<Rel>, rel: Rel, files: set<Proc>, active: bool, stale: Option<Proc>)
    | PruneLeaving(ok: bool)
    | Deleting
    | Ending

  datatype Channel = Channel(
    g: Guard.Guard,
    releases: map<Rel, Release>,
    tombs: set<Rel>,
    current: Option<Rel>,
    previous: Option<Rel>,
    txn: Option<Record>,
    leases: map<(Rel, Proc), Lease>,
    runners: map<Proc, Launch>,
    phase: Phase)

  const EMPTY: Channel := Channel(Guard.INIT, map[], {}, None, None, None, map[], map[], Idle)

  datatype RunnerAction =
    | Resolve      // realpath(current) under the guard
    | OpenLease
    | WriteLease
    | Launch       // the guard has been released
    | Quit         // exit handler: remove the own lease
    | Fail         // startup throws, or waiting for the guard timed out

  // installChannel, materializeRelease, promoteRelease and rollbackChannel.
  datatype PlanAction =
    | LookForRecord
    | Reuse
    | StartBuild
    | Build
    | PublishRelease
    | NoteCurrent
    | Mark
    | AlreadyCurrent
    | WriteRecord
    | PublishLauncher
    | ReadBoth
    | WriteSwap

  // completeRollbackTransaction.
  datatype ReplayAction = EnterReplay | SwapCurrent | SwapPrevious | ForgetRecord | LeaveReplay

  // pruneChannelReleases.
  datatype PruneAction =
    | EnterPrune
    | ReadProtected
    | Skip(rel: Rel)
    | ScanRelease(rel: Rel)
    | ScanLease(owner: Proc, active: bool) // read a lease and probe its process
    | DropLease(works: bool)               // remove the lease just judged inactive; on failure it counts as active
    | Keep
    | Retire
    | EndScan
    | LeavePrune
    | Delete(rel: Rel)
    | EndDelete

  datatype Action =
    | StartRunner(p: Proc)
    | StartInstaller(p: Proc, task: Task)
    | Crash(p: Proc)
    | OnGuard(a: Guard.Action)
    | Run(p: Proc, r: RunnerAction)
    | Plan(step: PlanAction)
    | Replay(swap: ReplayAction)
    | Prune(gc: PruneAction)
    | Throw // the installer's current operation fails

  // ---------- the runner ----------

  function NextBuilt(b: Built): Built {
    match b
    case Created => Unpacked
    case Unpacked => Installed
    case Installed => Verified
    case Verified => Described
    case Described => Synced
    case Synced => Synced
  }

  predicate RunnerEnabled(s: Channel, p: Proc, r: RunnerAction)
  {
    && p in s.runners && Guard.At(s.g, p)
    && match r
       case Resolve => s.runners[p].Starting? && Guard.Holds(s.g, p) && s.current.Some? && s.current.value in s.releases
       case OpenLease => s.runners[p].Resolved?
       case WriteLease => s.runners[p].Leasing?
       case Launch => s.runners[p].Leased? && !Guard.Inside(s.g, p)
       case Quit => s.runners[p].Running?
       case Fail =>
         || (s.runners[p].Starting? && (Guard.Holds(s.g, p) || !Guard.Inside(s.g, p)))
         || s.runners[p].Resolved? || s.runners[p].Leasing?
  }

  function RunnerExec(s: Channel, p: Proc, r: RunnerAction): Channel
    requires RunnerEnabled(s, p, r)
  {
    match r
    case Resolve => s.(runners := s.runners[p := Resolved(s.current.value)])
    case OpenLease =>
      var rel := s.runners[p].rel;
      s.(leases := s.leases[(rel, p) := Torn], runners := s.runners[p := Leasing(rel)])
    case WriteLease => // into the file it opened, which may have been removed meanwhile
      var rel := s.runners[p].rel;
      s.(leases := if (rel, p) in s.leases then s.leases[(rel, p) := Complete] else s.leases,
         runners := s.runners[p := Leased(rel)])
    case Launch => s.(runners := s.runners[p := Running(s.runners[p].rel)])
    case Quit =>
      s.(leases := s.leases - {(s.runners[p].rel, p)}, runners := s.runners[p := Failed])
    case Fail => s.(runners := s.runners[p := Failed])
  }

  // The release a runner relies on from the moment it resolved `current` until its exit handler ran.
  predicate Uses(s: Channel, p: Proc, rel: Rel)
  {
    p in s.runners
    && match s.runners[p]
       case Resolved(x) => x == rel
       case Leasing(x) => x == rel
       case Leased(x) => x == rel
       case Running(x) => x == rel
       case _ => false
  }

  // ---------- the guard, as used by runners and by the installer ----------

  predicate IsInstaller(s: Channel, p: Proc) { s.g.maint == Some(p) }

  predicate GuardAllowed(s: Channel, a: Guard.Action)
  {
    match a
    case Spawn(_, _) => false
    case Die(_) => false
    case MakeDir(p, _) => MayClaim(s, p)
    case CreateOwner(p) => MayClaim(s, p)
    case Collide(p) => MayClaim(s, p)
    case CompleteOwner(p) => MayClaim(s, p)
    case AbandonClaim(p) => MayClaim(s, p)
    case Compare(p) => MayDrop(s, p)
    case RefuseDrop(p) => MayDrop(s, p)
    case UnlinkOwner(p) => MayRemove(s, p)
    case RemoveDir(p) => MayRemove(s, p)
    case Leak(p) => MayRemove(s, p)
    case ReadOwner(p) => MayReap(s, p)
    case Probe(p) => MayReap(s, p)
    case Spare(p) => MayReap(s, p)
    case Retire(p) => MayReap(s, p)
    case Inspect(p) => MayReap(s, p)
  }

  predicate MayReap(s: Channel, p: Proc) { IsInstaller(s, p) && (s.phase.Queued? || s.phase.PruneQueued?) }

  // A claim that collided removes what it found before it is tried again.
  predicate MayRemove(s: Channel, p: Proc)
  {
    MayDrop(s, p) || (MayClaim(s, p) && Guard.At(s.g, p) && s.g.stage[p].Dropping?)
  }

  predicate MayClaim(s: Channel, p: Proc)
  {
    || (p in s.runners && s.runners[p].Starting?)
    || MayReap(s, p)
  }

  predicate MayDrop(s: Channel, p: Proc)
  {
    || (p in s.runners && (s.runners[p].Leased? || s.runners[p].Failed?))
    || (IsInstaller(s, p) && (s.phase.Leaving? || s.phase.PruneLeaving?))
  }

  // A failed claim or a failed release makes the code around it throw; only pruning carries on after its release.
  function GuardExec(s: Channel, a: Guard.Action): Channel
    requires Guard.Enabled(s.g, a) && GuardAllowed(s, a)
  {
    var s' := s.(g := Guard.Exec(s.g, a));
    if a.AbandonClaim? || a.Leak? || a.RefuseDrop? then
      if a.p in s.runners then s'.(runners := s.runners[a.p := Failed])
      else if s.phase.PruneLeaving? then s'
      else s'.(phase := AfterThrow(s.phase))
    else s'
  }

  // Where a throw leads: sections under the guard release it first (`finally`).
  function AfterThrow(phase: Phase): Phase
  {
    match phase
    case Queued(goal) => Leaving(goal, false)
    case ReplayCurrent(goal) => Leaving(goal, false)
    case ReplayPrevious(goal) => Leaving(goal, false)
    case ReplayForget(goal) => Leaving(goal, false)
    case Leaving(goal, _) => Leaving(goal, false)
    case PruneQueued => PruneLeaving(false)
    case PruneReading => PruneLeaving(false)
    case PruneScanning(_, _) => PruneLeaving(false)
    case PruneLeases(_, _, _, _, _, _) => PruneLeaving(false)
    case PruneLeaving(_) => PruneLeaving(false)
    case _ => Ending
  }

  // ---------- the installer ----------

  function Links(s: Channel): set<Rel>
  {
    (if s.current.Some? then {s.current.value} else {}) + (if s.previous.Some? then {s.previous.value} else {})
  }

  function LeaseFiles(s: Channel, rel: Rel): set<Proc>
  {
    set k | k in s.leases && k.0 == rel :: k.1
  }

  predicate InstallerHolds(s: Channel)
  {
    s.g.maint.Some? && Guard.Holds(s.g, s.g.maint.value)
  }

  predicate InstallerOutside(s: Channel)
  {
    s.g.maint.Some? && Guard.At(s.g, s.g.maint.value) && !Guard.Inside(s.g, s.g.maint.value) && s.g.reap.NotReaping?
  }

  // validateRollbackTarget succeeds for both targets of the record.
  predicate Recoverable(s: Channel, t: Record)
  {
    t.desiredCurrent in s.releases && (t.desiredPrevious.Some? ==> t.desiredPrevious.value in s.releases)
  }

  predicate PlanEnabled(s: Channel, a: PlanAction)
  {
    && s.g.maint.Some?
    && match a
       case LookForRecord => s.phase.Began? && (s.txn.Some? ==> Recoverable(s, s.txn.value))
       case Reuse => s.phase.Acting? && s.phase.task.Install? && s.phase.task.rel in s.releases
       case StartBuild => s.phase.Acting? && s.phase.task.Install? && s.phase.task.rel !in s.releases
       case Build => s.phase.Building?
       // A directory is never renamed over one that is not empty.
       case PublishRelease => s.phase.Building? && s.phase.built == Synced && s.phase.rel !in s.releases
       case NoteCurrent => s.phase.Promoting? && (s.current.Some? ==> s.current.value in s.releases)
       case Mark => s.phase.Noted? && s.phase.rel in s.releases
       case AlreadyCurrent => s.phase.Noted? && s.phase.prior == Some(s.phase.rel)
       case WriteRecord => s.phase.Noted? && s.phase.prior != Some(s.phase.rel)
       case PublishLauncher => s.phase.Publishing?
       case ReadBoth =>
         && s.phase.Acting? && s.phase.task.Rollback?
         && s.current.Some? && s.current.value in s.releases
         && s.previous.Some? && s.previous.value in s.releases
       case WriteSwap => s.phase.Swapping?
  }

  function PlanExec(s: Channel, a: PlanAction): Channel
    requires PlanEnabled(s, a)
  {
    match a
    case LookForRecord =>
      s.(phase := if s.txn.None? then Acting(s.phase.task) else Queued(ThenTask(s.phase.task)))
    case Reuse => s.(phase := Promoting(s.phase.task.rel))
    case StartBuild => s.(phase := Building(s.phase.task.rel, Created))
    case Build => s.(phase := Building(s.phase.rel, NextBuilt(s.phase.built)))
    case PublishRelease =>
      s.(releases := s.releases[s.phase.rel := Release(s.phase.built, false)], phase := Promoting(s.phase.rel))
    case NoteCurrent => s.(phase := Noted(s.phase.rel, s.current))
    case Mark => s.(releases := s.releases[s.phase.rel := s.releases[s.phase.rel].(marked := true)])
    case AlreadyCurrent => s.(phase := PruneQueued)
    case WriteRecord => s.(txn := Some(Record(s.phase.rel, s.phase.prior)), phase := Publishing)
    case PublishLauncher => s.(phase := Queued(ThenPrune))
    case ReadBoth => s.(phase := Swapping(s.current.value, s.previous.value))
    case WriteSwap => s.(txn := Some(Record(s.phase.previous, Some(s.phase.current))), phase := Queued(ThenEnd))
  }

  predicate ReplayEnabled(s: Channel, a: ReplayAction)
  {
    && s.g.maint.Some?
    && match a
       case EnterReplay => s.phase.Queued? && InstallerHolds(s)
       case SwapCurrent => s.phase.ReplayCurrent? && s.txn.Some?
       case SwapPrevious => s.phase.ReplayPrevious? && s.txn.Some?
       case ForgetRecord => s.phase.ReplayForget?
       case LeaveReplay => s.phase.Leaving? && InstallerOutside(s)
  }

  function ReplayExec(s: Channel, a: ReplayAction): Channel
    requires ReplayEnabled(s, a)
  {
    match a
    case EnterReplay => s.(phase := ReplayCurrent(s.phase.goal))
    case SwapCurrent => s.(current := Some(s.txn.value.desiredCurrent), phase := ReplayPrevious(s.phase.goal))
    case SwapPrevious => s.(previous := s.txn.value.desiredPrevious, phase := ReplayForget(s.phase.goal))
    case ForgetRecord => s.(txn := None, phase := Leaving(s.phase.goal, true))
    case LeaveReplay => s.(phase := if s.phase.ok then AfterReplay(s.phase.goal) else Ending)
  }

  function AfterReplay(goal: Goal): Phase
  {
    match goal
    case ThenTask(task) => Acting(task)
    case ThenPrune => PruneQueued
    case ThenEnd => Ending
  }

  predicate PruneEnabled(s: Channel, a: PruneAction)
  {
    && s.g.maint.Some?
    && match a
       case EnterPrune => s.phase.PruneQueued? && InstallerHolds(s)
       case ReadProtected => s.phase.PruneReading? && s.current.Some?
       case Skip(rel) => s.phase.PruneScanning? && rel in s.phase.todo
       case ScanRelease(rel) =>
         && s.phase.PruneScanning? && rel in s.phase.todo && rel !in s.phase.protected
         && rel in s.releases && !s.releases[rel].marked
       // The liveness oracle is sound: a complete lease is judged inactive only after its process
       // lifetime has ended. It may err towards active; an unreadable lease may go either way.
       case ScanLease(q, active) =>
         && s.phase.PruneLeases? && q in s.phase.files && s.phase.stale.None?
         && (CompleteLease(s, s.phase.rel, q) && !active ==> q !in s.g.stage)
       case DropLease(_) => s.phase.PruneLeases? && s.phase.stale.Some?
       case Keep => s.phase.PruneLeases? && s.phase.files == {} && s.phase.stale.None?
       case Retire =>
         s.phase.PruneLeases? && s.phase.files == {} && s.phase.stale.None? && !s.phase.active && s.phase.rel in s.releases
       case EndScan => s.phase.PruneScanning? && s.phase.todo == {}
       case LeavePrune => s.phase.PruneLeaving? && InstallerOutside(s)
       case Delete(rel) => s.phase.Deleting? && rel in s.tombs
       case EndDelete => s.phase.Deleting?
  }

  predicate CompleteLease(s: Channel, rel: Rel, p: Proc)
  {
    (rel, p) in s.leases && s.leases[(rel, p)] == Complete
  }

  function PruneExec(s: Channel, a: PruneAction): Channel
    requires PruneEnabled(s, a)
  {
    match a
    case EnterPrune => s.(phase := PruneReading)
    case ReadProtected => s.(phase := PruneScanning(Links(s), s.releases.Keys))
    case Skip(rel) => s.(phase := PruneScanning(s.phase.protected, s.phase.todo - {rel}))
    case ScanRelease(rel) =>
      s.(phase := PruneLeases(s.phase.protected, s.phase.todo - {rel}, rel, LeaseFiles(s, rel), false, None))
    case ScanLease(q, active) =>
      s.(phase := s.phase.(files := s.phase.files - {q}, active := s.phase.active || active,
                           stale := if active then None else Some(q)))
    case DropLease(works) =>
      s.(phase := s.phase.(active := s.phase.active || !works, stale := None),
         leases := if works then s.leases - {(s.phase.rel, s.phase.stale.value)} else s.leases)
    case Keep => s.(phase := PruneScanning(s.phase.protected, s.phase.todo))
    case Retire =>
      s.(releases := s.releases - {s.phase.rel}, tombs := s.tombs + {s.phase.rel},
         phase := PruneScanning(s.phase.protected, s.phase.todo))
    case EndScan => s.(phase := PruneLeaving(true))
    case LeavePrune => s.(phase := if s.phase.ok then Deleting else Ending)
    case Delete(rel) => s.(tombs := s.tombs - {rel})
    case EndDelete => s.(phase := Ending)
  }

  predicate ThrowEnabled(s: Channel)
  {
    && s.g.maint.Some? && !s.phase.Leaving? && !s.phase.PruneLeaving? && !s.phase.Ending?
    && (s.phase.Queued? || s.phase.PruneQueued? ==> InstallerOutside(s))
  }

  // ---------- the whole channel ----------

  predicate Enabled(s: Channel, a: Action)
  {
    match a
    case StartRunner(p) => Guard.Enabled(s.g, Guard.Spawn(p, false))
    case StartInstaller(p, _) => Guard.Enabled(s.g, Guard.Spawn(p, true)) && s.phase.Idle?
    case Crash(p) => Guard.Enabled(s.g, Guard.Die(p))
    case OnGuard(ga) => Guard.Enabled(s.g, ga) && GuardAllowed(s, ga)
    case Run(p, r) => RunnerEnabled(s, p, r)
    case Plan(i) => PlanEnabled(s, i)
    case Replay(i) => ReplayEnabled(s, i)
    case Prune(i) => PruneEnabled(s, i)
    case Throw => ThrowEnabled(s)
  }

  function Exec(s: Channel, a: Action): Channel
    requires Enabled(s, a)
  {
    match a
    case StartRunner(p) => s.(g := Guard.Exec(s.g, Guard.Spawn(p, false)), runners := s.runners[p := Starting])
    case StartInstaller(p, task) => s.(g := Guard.Exec(s.g, Guard.Spawn(p, true)), phase := Began(task))
    case Crash(p) =>
      s.(g := Guard.Exec(s.g, Guard.Die(p)), runners := s.runners - {p},
         phase := if IsInstaller(s, p) then Idle else s.phase)
    case OnGuard(ga) => GuardExec(s, ga)
    case Run(p, r) => RunnerExec(s, p, r)
    case Plan(i) => PlanExec(s, i)
    case Replay(i) => ReplayExec(s, i)
    case Prune(i) => PruneExec(s, i)
    case Throw => s.(phase := AfterThrow(s.phase))
  }

  predicate IsRun(s: Channel, acts: seq<Action>)
    decreases acts
  {
    acts == [] || (Enabled(s, acts[0]) && IsRun(Exec(s, acts[0]), acts[1..]))
  }

  function After(s: Channel, acts: seq<Action>): Channel
    requires IsRun(s, acts)
    decreases acts
  {
    if acts == [] then s else After(Exec(s, acts[0]), acts[1..])
  }
}
