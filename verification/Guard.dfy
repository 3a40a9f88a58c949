/**
 The launch/GC guard: the directory `.launch-gc-lock`, claimed by one `mkdir` and then
 described by `owner.json`. Launchers claim and drop it (renderChannelRunner); maintenance
 claims, drops and may reap it (acquireChannelRuntimeLock, reapDeadChannelRuntimeLock).

 Every action is one access to the file system or one process probe, so other processes act between
 any two of them, and `Die` may strike at any moment. Directory and owner file are reached by path,
 whoever made them; only the write that completes an owner file goes to the file it opened. A `Proc`
 is one process lifetime: a pid with its recorded process identity, so it is never used twice.
 */
module Guard {
  import opened Common

  type Proc = nat

  // A random token of one claim; it embeds the pid of the claimant.
  datatype Token = Token(proc: Proc, salt: nat)

  // owner.json is created first and filled afterwards, so a reader can find it empty.
  datatype OwnerFile = Missing | Torn(token: Token) | Owner(token: Token)

  datatype Directory = Absent | Present(owner: OwnerFile)

  datatype Stage =
    | Outside
    | Made(token: Token)     // mkdir succeeded, owner.json not created
    | Writing(token: Token)  // owner.json created, not yet complete
    | Holding(token: Token)
    | Checked(token: Token)  // release has read its own token
    | Dropping               // removing whatever is at the guard's path

  // `alive` records whether the owner was alive when its record was read; the code does not know it.
  datatype Reap =
    | NotReaping
    | Read(token: Token, alive: bool)
    | Condemned(token: Token, alive: bool)      // its process was probed and has ended
    | Retired(token: Token, found: OwnerFile)   // renamed away; `found` is the owner it carries

  /**
   `stage` has exactly the live processes as keys; `maint` is the process holding the installer lock;
   `spent` are all lifetimes ever started. `robbed` records the processes inside the guard at a time
   when its directory was renamed away, until they leave.
   */
  datatype Guard = Guard(dir: Directory, stage: map<Proc, Stage>, spent: set<Proc>,
                         maint: Option<Proc>, reap: Reap, robbed: set<Proc>)

  const INIT: Guard := Guard(Absent, map[], {}, None, NotReaping, {})

  datatype Action =
    | Spawn(p: Proc, maintenance: bool)
    | Die(p: Proc)
    | MakeDir(p: Proc, salt: nat)
    | CreateOwner(p: Proc)
    | Collide(p: Proc)        // owner.json exists already: everything is removed, and the claim tried again
    | CompleteOwner(p: Proc)
    | AbandonClaim(p: Proc)   // publishing owner.json failed: everything is removed, and the error thrown
    | Compare(p: Proc)        // release: the token read is its own
    | RefuseDrop(p: Proc)     // release: the token is foreign or missing
    | UnlinkOwner(p: Proc)
    | RemoveDir(p: Proc)
    | Leak(p: Proc)           // release or removal failed part-way; the process goes on without the guard
    | ReadOwner(p: Proc)
    | Probe(p: Proc)          // the recorded process has ended
    | Spare(p: Proc)          // it seems to be alive
    | Retire(p: Proc)
    | Inspect(p: Proc)

  predicate At(g: Guard, p: Proc) { p in g.stage }

  predicate Inside(g: Guard, p: Proc) { At(g, p) && g.stage[p] != Outside }

  predicate Holds(g: Guard, p: Proc) { At(g, p) && g.stage[p].Holding? }

  predicate Reaping(g: Guard, p: Proc) { At(g, p) && g.maint == Some(p) && g.stage[p].Outside? }

  predicate Enabled(g: Guard, a: Action)
  {
    match a
    case Spawn(p, m) => p !in g.spent && (m ==> g.maint.None?)
    case Die(p) => At(g, p)
    case MakeDir(p, _) => At(g, p) && g.stage[p].Outside? && g.dir.Absent? && (g.maint == Some(p) ==> g.reap.NotReaping?)
    case CreateOwner(p) => At(g, p) && g.stage[p].Made? && g.dir == Present(Missing)
    case Collide(p) => At(g, p) && g.stage[p].Made? && g.dir.Present? && g.dir != Present(Missing)
    case CompleteOwner(p) => At(g, p) && g.stage[p].Writing?
    case AbandonClaim(p) => At(g, p) && (g.stage[p].Made? || g.stage[p].Writing?)
    case Compare(p) => Holds(g, p) && g.dir == Present(Owner(g.stage[p].token))
    case RefuseDrop(p) => Holds(g, p) && g.dir != Present(Owner(g.stage[p].token))
    case UnlinkOwner(p) => At(g, p) && (g.stage[p].Checked? || g.stage[p].Dropping?)
    case RemoveDir(p) => At(g, p) && g.stage[p].Dropping? && (g.dir.Absent? || g.dir.owner.Missing?)
    case Leak(p) => At(g, p) && (g.stage[p].Holding? || g.stage[p].Checked? || g.stage[p].Dropping?)
    case ReadOwner(p) => Reaping(g, p) && g.reap.NotReaping? && g.dir.Present? && g.dir.owner.Owner?
    // The liveness probe is sound: only ended lifetimes are condemned. It may err the other way.
    case Probe(p) => Reaping(g, p) && g.reap.Read? && g.reap.token.proc !in g.stage
    case Spare(p) => Reaping(g, p) && g.reap.Read?
    case Retire(p) => Reaping(g, p) && g.reap.Condemned?
    case Inspect(p) => Reaping(g, p) && g.reap.Retired?
  }

  function Insiders(g: Guard): set<Proc> { set p | p in g.stage && g.stage[p] != Outside }

  function Goto(g: Guard, p: Proc, st: Stage): Guard
  {
    g.(stage := g.stage[p := st], robbed := if st == Outside then g.robbed - {p} else g.robbed)
  }

  function Exec(g: Guard, a: Action): Guard
    requires Enabled(g, a)
  {
    match a
    case Spawn(p, m) =>
      g.(stage := g.stage[p := Outside], spent := g.spent + {p}, maint := if m then Some(p) else g.maint)
    case Die(p) =>
      var g' := g.(stage := g.stage - {p}, robbed := g.robbed - {p});
      if g.maint == Some(p) then g'.(maint := None, reap := NotReaping) else g'
    case MakeDir(p, salt) => Goto(g, p, Made(Token(p, salt))).(dir := Present(Missing))
    case CreateOwner(p) => Goto(g, p, Writing(g.stage[p].token)).(dir := Present(Torn(g.stage[p].token)))
    case Collide(p) => Goto(g, p, Dropping)
    case CompleteOwner(p) =>
      var t := g.stage[p].token;
      Goto(g, p, Holding(t)).(dir := if g.dir == Present(Torn(t)) then Present(Owner(t)) else g.dir)
    case AbandonClaim(p) => Goto(g, p, Dropping)
    case Compare(p) => Goto(g, p, Checked(g.stage[p].token))
    case RefuseDrop(p) => Goto(g, p, Outside)
    case UnlinkOwner(p) => Goto(g, p, Dropping).(dir := if g.dir.Present? then Present(Missing) else Absent)
    case RemoveDir(p) => Goto(g, p, Outside).(dir := Absent)
    case Leak(p) => Goto(g, p, Outside)
    case ReadOwner(p) => g.(reap := Read(g.dir.owner.token, g.dir.owner.token.proc in g.stage))
    case Probe(p) => g.(reap := Condemned(g.reap.token, g.reap.alive))
    case Spare(p) => g.(reap := NotReaping)
    // Whatever is at the guard's path now is renamed away.
    case Retire(p) =>
      if g.dir.Absent? then g.(reap := NotReaping)
      else g.(dir := Absent, reap := Retired(g.reap.token, g.dir.owner), robbed := Insiders(g))
    case Inspect(p) => g.(reap := NotReaping)
  }

  predicate IsRun(g: Guard, acts: seq<Action>)
    decreases acts
  {
    acts == [] || (Enabled(g, acts[0]) && IsRun(Exec(g, acts[0]), acts[1..]))
  }

  function After(g: Guard, acts: seq<Action>): Guard
    requires IsRun(g, acts)
    decreases acts
  {
    if acts == [] then g else After(Exec(g, acts[0]), acts[1..])
  }

  // ---------- what holds in every run ----------

  ghost predicate Valid(g: Guard)
  {
    && g.stage.Keys <= g.spent
    && (g.maint.Some? ==> g.maint.value in g.stage)
    && (!g.reap.NotReaping? ==> g.maint.Some? && g.stage[g.maint.value] == Outside)
    && (g.reap.Read? || g.reap.Condemned? ==> g.reap.token.proc in g.spent)
    && (g.reap.Condemned? ==> g.reap.token.proc !in g.stage)
    && g.robbed <= Insiders(g)
    && (g.dir.Present? && !g.dir.owner.Missing? ==> g.dir.owner.token.proc in g.spent)
    && (forall p :: Inside(g, p) && g.stage[p] != Dropping ==> g.stage[p].token.proc == p)
  }

  lemma ValidStep(g: Guard, a: Action)
    requires Valid(g) && Enabled(g, a)
    ensures Valid(Exec(g, a))
  {
    KnownStep(g, a);
    RobbedStep(g, a);
    TokensStep(g, a);
    hide Exec, Enabled, Insiders, Inside;
  }

  lemma KnownStep(g: Guard, a: Action)
    requires Valid(g) && Enabled(g, a)
    ensures var g' := Exec(g, a);
            && g'.stage.Keys <= g'.spent
            && (g'.maint.Some? ==> g'.maint.value in g'.stage)
            && (!g'.reap.NotReaping? ==> g'.maint.Some? && g'.stage[g'.maint.value] == Outside)
            && (g'.reap.Read? || g'.reap.Condemned? ==> g'.reap.token.proc in g'.spent)
            && (g'.reap.Condemned? ==> g'.reap.token.proc !in g'.stage)
            && (g'.dir.Present? && !g'.dir.owner.Missing? ==> g'.dir.owner.token.proc in g'.spent)
  {
    hide Insiders;
  }

  lemma RobbedStep(g: Guard, a: Action)
    requires g.robbed <= Insiders(g) && Enabled(g, a) && g.stage.Keys <= g.spent
    ensures Exec(g, a).robbed <= Insiders(Exec(g, a))
  {
    var g' := Exec(g, a);
    forall p | p in g'.robbed ensures p in Insiders(g') {
      if p in g.robbed { assert p in Insiders(g); }
    }
  }

  lemma TokensStep(g: Guard, a: Action)
    requires Enabled(g, a) && forall p :: Inside(g, p) && g.stage[p] != Dropping ==> g.stage[p].token.proc == p
    ensures var g' := Exec(g, a); forall p :: Inside(g', p) && g'.stage[p] != Dropping ==> g'.stage[p].token.proc == p
  {
    hide Insiders;
    var g' := Exec(g, a);
    forall p | Inside(g', p) && g'.stage[p] != Dropping ensures g'.stage[p].token.proc == p {
      if p != a.p { assert Inside(g, p); }
    }
  }

  lemma {:induction false} ValidRun(g: Guard, acts: seq<Action>)
    requires Valid(g) && IsRun(g, acts)
    ensures Valid(After(g, acts))
    decreases acts
  {
    if acts != [] {
      ValidStep(g, acts[0]);
      ValidRun(Exec(g, acts[0]), acts[1..]);
    }
  }

  // ---------- when every claim is left alone ----------

  // What a process at stage `s` inside the guard counts on finding at its path.
  predicate Fits(g: Guard, p: Proc, s: Stage)
  {
    match s
    case Outside => true
    case Made(t) => g.dir == Present(Missing)
    case Writing(t) => g.dir == Present(Torn(t))
    case Holding(t) => g.dir == Present(Owner(t))
    case Checked(t) => g.dir == Present(Owner(t))
    case Dropping => g.dir.Present? && (g.dir.owner.Missing? || (g.dir.owner.Torn? && g.dir.owner.token.proc == p))
  }

  ghost predicate Alone(g: Guard)
  {
    forall p, q :: Inside(g, p) && Inside(g, q) ==> p == q
  }

  // At most one live process is inside, and it finds the guard as it left it.
  ghost predicate Orderly(g: Guard)
  {
    Alone(g) && forall p :: p in g.stage ==> Fits(g, p, g.stage[p])
  }

  // The directory about to be renamed away is the claim of a live process.
  predicate Robs(g: Guard, a: Action)
  {
    a.Retire? && g.dir.Present? && Insiders(g) != {}
  }

  // The process that acts finds the guard as it leaves it.
  lemma OwnStep(g: Guard, a: Action)
    requires Valid(g) && Enabled(g, a) && (Inside(g, a.p) ==> Fits(g, a.p, g.stage[a.p]))
    ensures var g' := Exec(g, a); Inside(g', a.p) ==> Fits(g', a.p, g'.stage[a.p])
  {
    if Inside(g, a.p) { assert g.stage[a.p] != Dropping ==> g.stage[a.p].token.proc == a.p; }
  }

  // Everybody else stays where they are, and without the actor inside the directory only appears or is renamed away.
  lemma OthersStep(g: Guard, a: Action, p: Proc)
    requires Enabled(g, a) && p != a.p && Inside(Exec(g, a), p)
    ensures Inside(g, p) && Exec(g, a).stage[p] == g.stage[p]
    ensures !Inside(g, a.p) && !a.MakeDir? && !a.Retire? ==> Exec(g, a).dir == g.dir && !Inside(Exec(g, a), a.p)
    ensures !a.Retire? ==> (p in Exec(g, a).robbed <==> p in g.robbed)
    ensures a.MakeDir? ==> g.dir.Absent?
  {
  }

  lemma OrderlyStep(g: Guard, a: Action)
    requires Valid(g) && Orderly(g) && Enabled(g, a)
    ensures Orderly(Exec(g, a)) <==> !Robs(g, a)
  {
    hide Exec, Enabled, Fits, Valid;
    var g' := Exec(g, a);
    InsidersFit(g);
    if Robs(g, a) {
      RobbedLosesDir(g, a);
    } else {
      OwnStep(g, a);
      if a.Retire? { NothingRobbed(g, a); }
      forall p | p in g'.stage ensures Fits(g', p, g'.stage[p]) {
        if p != a.p && Inside(g', p) { OthersStep(g, a, p); }
        SameDirFits(g, g', p);
      }
      forall p | Inside(g', p) && p != a.p ensures Inside(g, p) && !Inside(g', a.p) { OthersStep(g, a, p); }
    }
  }

  lemma SameDirFits(g: Guard, g': Guard, p: Proc)
    requires p in g'.stage
    ensures g'.stage[p] == Outside ==> Fits(g', p, g'.stage[p])
    ensures g'.dir == g.dir && p in g.stage && g'.stage[p] == g.stage[p] && Fits(g, p, g.stage[p]) ==> Fits(g', p, g'.stage[p])
  {
  }

  lemma RobbedLosesDir(g: Guard, a: Action)
    requires Enabled(g, a) && Robs(g, a)
    ensures !Orderly(Exec(g, a))
  {
    var p :| p in Insiders(g);
    assert !Fits(Exec(g, a), p, Exec(g, a).stage[p]);
  }

  // A rename that robs nobody meets an empty guard.
  lemma NothingRobbed(g: Guard, a: Action)
    requires Enabled(g, a) && !Robs(g, a) && a.Retire?
    ensures g.dir.Absent? || forall p :: !Inside(g, p)
  {
    forall p | Inside(g, p) ensures p in Insiders(g) {}
  }

  lemma InsidersFit(g: Guard)
    requires Orderly(g)
    ensures forall p :: Inside(g, p) ==> p in Insiders(g) && Fits(g, p, g.stage[p]) && g.dir.Present?
  {
    forall p | Inside(g, p) ensures p in Insiders(g) && Fits(g, p, g.stage[p]) && g.dir.Present? {
      assert Fits(g, p, g.stage[p]);
    }
  }

  ghost predicate AlwaysOrderly(g: Guard, acts: seq<Action>)
    requires IsRun(g, acts)
    decreases acts
  {
    Orderly(g) && (acts == [] || AlwaysOrderly(Exec(g, acts[0]), acts[1..]))
  }

  ghost predicate NeverRobbed(g: Guard, acts: seq<Action>)
    requires IsRun(g, acts)
    decreases acts
  {
    acts == [] || (!Robs(g, acts[0]) && NeverRobbed(Exec(g, acts[0]), acts[1..]))
  }

  /**
   Exactly when the guard works as intended: at every moment of a run at most one live process is inside
   and finds its claim as it left it, if and only if no reaper of that run ever renames the directory
   while a live process is inside.
   */
  lemma {:induction false} OrderlyIffNeverRobbed(g: Guard, acts: seq<Action>)
    requires Valid(g) && Orderly(g) && IsRun(g, acts)
    ensures AlwaysOrderly(g, acts) <==> NeverRobbed(g, acts)
    ensures AlwaysOrderly(g, acts) ==> Orderly(After(g, acts))
    decreases acts
  {
    if acts != [] {
      var g' := Exec(g, acts[0]);
      ValidStep(g, acts[0]);
      OrderlyStep(g, acts[0]);
      if Orderly(g') {
        OrderlyIffNeverRobbed(g', acts[1..]);
      } else {
        assert !AlwaysOrderly(g', acts[1..]);
      }
    }
  }

  /** In such runs a live holder finds its own token, so the "ownership changed" branch of its release is not taken. */
  lemma ReleaseNeverRefused(acts: seq<Action>, p: Proc)
    requires IsRun(INIT, acts) && NeverRobbed(INIT, acts)
    ensures !Enabled(After(INIT, acts), RefuseDrop(p))
    ensures Holds(After(INIT, acts), p) ==> Enabled(After(INIT, acts), Compare(p))
  {
    OrderlyIffNeverRobbed(INIT, acts);
    var g := After(INIT, acts);
    if Holds(g, p) { assert Fits(g, p, g.stage[p]); }
  }

  // ---------- mutual exclusion ----------

  // A claim is made while a process whose claim was renamed away is still inside.
  predicate Intrudes(g: Guard, a: Action) { a.MakeDir? && g.robbed != {} }

  // Whoever is inside finds its claim, or was robbed of it and nothing has taken its place.
  ghost predicate AloneFits(g: Guard)
  {
    Alone(g) && forall p :: Inside(g, p) ==> OwnOrRobbed(g, p)
  }

  predicate OwnOrRobbed(g: Guard, p: Proc)
    requires p in g.stage
  {
    if p in g.robbed then g.dir.Absent? else Fits(g, p, g.stage[p])
  }

  lemma OwnOrRobbedStep(g: Guard, a: Action)
    requires Valid(g) && Enabled(g, a) && (Inside(g, a.p) ==> OwnOrRobbed(g, a.p)) && Inside(Exec(g, a), a.p)
    ensures OwnOrRobbed(Exec(g, a), a.p)
  {
    hide Fits;
    if a.p in g.robbed {
      assert Inside(g, a.p);
    } else {
      OwnStep(g, a);
    }
  }

  lemma OtherOrRobbedStep(g: Guard, a: Action, p: Proc)
    requires Enabled(g, a) && p != a.p && Inside(Exec(g, a), p) && (Inside(g, p) ==> OwnOrRobbed(g, p))
    requires !Inside(g, a.p) && !a.MakeDir?
    ensures OwnOrRobbed(Exec(g, a), p)
  {
    OthersStep(g, a, p);
    SameDirFits(g, Exec(g, a), p);
  }

  lemma IntruderIsNotAlone(g: Guard, a: Action)
    requires Valid(g) && Enabled(g, a) && Intrudes(g, a)
    ensures !Alone(Exec(g, a))
  {
    var p :| p in g.robbed;
    assert p in Insiders(g);
    assert Inside(Exec(g, a), p) && Inside(Exec(g, a), a.p) && p != a.p;
  }

  // A free guard has nobody inside but those robbed of it.
  lemma FreeGuard(g: Guard)
    requires AloneFits(g) && g.dir.Absent? && g.robbed == {}
    ensures forall p :: !Inside(g, p)
  {
    assert forall p :: Inside(g, p) ==> OwnOrRobbed(g, p);
  }

  lemma AloneStep(g: Guard, a: Action)
    requires Valid(g) && AloneFits(g) && Enabled(g, a)
    ensures if Intrudes(g, a) then !Alone(Exec(g, a)) else AloneFits(Exec(g, a))
  {
    var g' := Exec(g, a);
    if Intrudes(g, a) {
      IntruderIsNotAlone(g, a);
    } else {
      if a.MakeDir? { FreeGuard(g); }
      forall p | Inside(g', p) && p != a.p ensures Inside(g, p) && !Inside(g, a.p) && !Inside(g', a.p) && !a.MakeDir? {
        OthersStep(g, a, p);
      }
      hide Exec, Enabled, Valid, Fits, OwnOrRobbed;
      forall p | Inside(g', p) ensures OwnOrRobbed(g', p) {
        if p == a.p { OwnOrRobbedStep(g, a); } else { OtherOrRobbedStep(g, a, p); }
      }
    }
  }

  ghost predicate AlwaysAlone(g: Guard, acts: seq<Action>)
    requires IsRun(g, acts)
    decreases acts
  {
    Alone(g) && (acts == [] || AlwaysAlone(Exec(g, acts[0]), acts[1..]))
  }

  ghost predicate NeverIntruded(g: Guard, acts: seq<Action>)
    requires IsRun(g, acts)
    decreases acts
  {
    acts == [] || (!Intrudes(g, acts[0]) && NeverIntruded(Exec(g, acts[0]), acts[1..]))
  }

  /**
   Mutual exclusion, exactly: at every moment of a run at most one live process is anywhere between mkdir
   and the removal, if and only if the run never makes a claim beside a process that is still inside after
   the directory was renamed away under it.
   */
  lemma {:induction false} MutualExclusion(g: Guard, acts: seq<Action>)
    requires Valid(g) && AloneFits(g) && IsRun(g, acts)
    ensures AlwaysAlone(g, acts) <==> NeverIntruded(g, acts)
    ensures AlwaysAlone(g, acts) ==> AloneFits(After(g, acts))
    decreases acts
  {
    if acts != [] {
      var g' := Exec(g, acts[0]);
      ValidStep(g, acts[0]);
      AloneStep(g, acts[0]);
      if Intrudes(g, acts[0]) {
        assert !AlwaysAlone(g', acts[1..]);
      } else {
        MutualExclusion(g', acts[1..]);
      }
    }
  }

  // ---------- conditions a reaper could check before it renames ----------

  // What is read from the guard's owner record names a process that has already ended.
  ghost predicate ReadsOnlyDead(g: Guard, acts: seq<Action>)
    requires IsRun(g, acts)
    decreases acts
  {
    acts == [] ||
    ((acts[0].ReadOwner? ==> g.dir.owner.token.proc !in g.stage) && ReadsOnlyDead(Exec(g, acts[0]), acts[1..]))
  }

  // The directory about to be renamed still carries the token that was read.
  predicate StillCarries(g: Guard, a: Action)
  {
    a.Retire? && g.reap.Condemned? && g.dir == Present(Owner(g.reap.token))
  }

  lemma CarriedIsNotRobbed(g: Guard, a: Action)
    requires Valid(g) && Orderly(g) && Enabled(g, a) && StillCarries(g, a)
    ensures !Robs(g, a) && Exec(g, a).reap == Retired(g.reap.token, Owner(g.reap.token))
  {
    forall p | p in Insiders(g) ensures false {
      assert Fits(g, p, g.stage[p]) && Inside(g, p);
    }
  }

  // Whatever is renamed away is found, when it is inspected, to carry the token that was read.
  ghost predicate TakesOnlyWhatItRead(g: Guard, acts: seq<Action>)
    requires IsRun(g, acts)
    decreases acts
  {
    acts == [] ||
    ((acts[0].Retire? && g.dir.Present? ==> Exec(g, acts[0]).reap == Retired(g.reap.token, Owner(g.reap.token)))
     && TakesOnlyWhatItRead(Exec(g, acts[0]), acts[1..]))
  }

  /** If every directory renamed away is found to carry the token that was read, no live process is ever robbed. */
  lemma {:induction false} CarriedReadsNeverRob(g: Guard, acts: seq<Action>)
    requires Valid(g) && Orderly(g) && IsRun(g, acts) && TakesOnlyWhatItRead(g, acts)
    ensures NeverRobbed(g, acts)
    decreases acts
  {
    if acts != [] {
      var a := acts[0];
      if StillCarries(g, a) { CarriedIsNotRobbed(g, a); }
      ValidStep(g, a);
      OrderlyStep(g, a);
      CarriedReadsNeverRob(Exec(g, a), acts[1..]);
    }
  }

  /**
   What the record at the path decides: in an orderly state a rename robs somebody exactly when the owner named
   there, complete or not, is a live process inside; in particular never when that process has ended.
   */
  lemma RecordDecides(g: Guard, a: Action)
    requires Valid(g) && Orderly(g) && Enabled(g, a) && a.Retire? && g.dir.Present? && !g.dir.owner.Missing?
    ensures Robs(g, a) <==> Inside(g, g.dir.owner.token.proc)
    ensures g.dir.owner.token.proc !in g.stage ==> !Robs(g, a)
  {
    forall p | p in Insiders(g) ensures p == g.dir.owner.token.proc && Inside(g, p) {
      assert Inside(g, p) && Fits(g, p, g.stage[p]);
      if g.stage[p] != Dropping { assert g.stage[p].token.proc == p; }
    }
    if Inside(g, g.dir.owner.token.proc) { assert g.dir.owner.token.proc in Insiders(g); }
  }

  // A claim read when its owner was dead is still there.
  predicate DeadStays(g: Guard)
  {
    (g.reap.Read? || g.reap.Condemned?) && !g.reap.alive
    ==> g.reap.token.proc !in g.stage && g.reap.token.proc in g.spent && g.dir == Present(Owner(g.reap.token))
  }

  lemma DeadStaysStep(g: Guard, a: Action)
    requires Valid(g) && Orderly(g) && DeadStays(g) && Enabled(g, a)
    ensures DeadStays(Exec(g, a))
  {
    if Inside(g, a.p) { assert Fits(g, a.p, g.stage[a.p]); }
  }

  // In flight, the reaper only has claims it read when their owner was dead.
  predicate OnlyDeadInFlight(g: Guard) { g.reap.Read? || g.reap.Condemned? ==> !g.reap.alive }

  /**
   If the owner was already dead whenever its record was read, no live process is ever robbed, and the claim
   renamed away is always the one that was read: then the token-mismatch branch is not taken.
   */
  lemma {:induction false} DeadReadsNeverRob(g: Guard, acts: seq<Action>)
    requires Valid(g) && Orderly(g) && DeadStays(g) && OnlyDeadInFlight(g) && IsRun(g, acts) && ReadsOnlyDead(g, acts)
    requires g.reap.Retired? ==> g.reap.found == Owner(g.reap.token)
    ensures NeverRobbed(g, acts)
    ensures var e := After(g, acts); e.reap.Retired? ==> e.reap.found == Owner(e.reap.token)
    decreases acts
  {
    if acts != [] {
      var a := acts[0];
      if a.Retire? { CarriedIsNotRobbed(g, a); }
      ValidStep(g, a);
      OrderlyStep(g, a);
      DeadStaysStep(g, a);
      DeadReadsNeverRob(Exec(g, a), acts[1..]);
    }
  }

  /** From the start: the reaper takes what it examined in every run that reads only records of ended processes. */
  lemma ReaperTakesWhatItExamined(acts: seq<Action>)
    requires IsRun(INIT, acts) && ReadsOnlyDead(INIT, acts)
    ensures var g := After(INIT, acts);
            && (g.reap.Read? || g.reap.Condemned? ==> g.dir == Present(Owner(g.reap.token)) && Insiders(g) == {})
            && (g.reap.Retired? ==> g.reap.found == Owner(g.reap.token))
  {
    DeadReadsNeverRob(INIT, acts);
    OrderlyIffNeverRobbed(INIT, acts);
    ValidRun(INIT, acts);
    DeadReadsStay(INIT, acts);
    var g := After(INIT, acts);
    InsidersFit(g);
  }

  lemma {:induction false} DeadReadsStay(g: Guard, acts: seq<Action>)
    requires Valid(g) && Orderly(g) && DeadStays(g) && OnlyDeadInFlight(g)
    requires IsRun(g, acts) && ReadsOnlyDead(g, acts) && NeverRobbed(g, acts)
    ensures DeadStays(After(g, acts)) && OnlyDeadInFlight(After(g, acts))
    decreases acts
  {
    if acts != [] {
      ValidStep(g, acts[0]);
      OrderlyStep(g, acts[0]);
      DeadStaysStep(g, acts[0]);
      DeadReadsStay(Exec(g, acts[0]), acts[1..]);
    }
  }

  // ---------- claims without a complete owner record ----------

  // A claim without a complete owner record whose creator is gone.
  ghost predicate Orphaned(g: Guard)
  {
    g.dir.Present? && !g.dir.owner.Owner? && forall p :: !Inside(g, p)
  }

  // A reaper read an earlier claim, not its own, and has not renamed yet.
  predicate InFlight(g: Guard)
  {
    (g.reap.Read? || g.reap.Condemned?) && g.maint != Some(g.reap.token.proc)
  }

  lemma OrphanStep(g: Guard, a: Action)
    requires Valid(g) && Orphaned(g) && !InFlight(g) && Enabled(g, a)
    ensures var g' := Exec(g, a); Orphaned(g') && !InFlight(g') && g'.dir == g.dir
  {
    assert !Inside(g, a.p);
    assert forall p :: Inside(Exec(g, a), p) ==> Inside(g, p);
  }

  lemma {:induction false} OrphanStays(g: Guard, acts: seq<Action>)
    requires Valid(g) && Orphaned(g) && !InFlight(g) && IsRun(g, acts)
    ensures Orphaned(After(g, acts)) && !InFlight(After(g, acts)) && After(g, acts).dir == g.dir
    decreases acts
  {
    if acts != [] {
      ValidStep(g, acts[0]);
      OrphanStep(g, acts[0]);
      OrphanStays(Exec(g, acts[0]), acts[1..]);
    }
  }

  /**
   An ownerless claim whose creator died is there for ever, and no process, launcher or maintenance, enters
   again, in whatever follows, if and only if no reaper is on its way that read an earlier claim.
   */
  lemma OrphanIsForever(g: Guard)
    requires Valid(g) && Orphaned(g)
    ensures (forall acts :: IsRun(g, acts) ==> Orphaned(After(g, acts)) && After(g, acts).dir == g.dir) <==> !InFlight(g)
  {
    if InFlight(g) {
      var acts := Sweep(g);
      assert After(g, acts).dir != g.dir;
    } else {
      forall acts | IsRun(g, acts) ensures Orphaned(After(g, acts)) && After(g, acts).dir == g.dir { OrphanStays(g, acts); }
    }
  }

  // A reaper on its way takes whatever claim it finds, once the process it read about has ended.
  lemma Sweep(g: Guard) returns (acts: seq<Action>)
    requires Valid(g) && InFlight(g) && g.dir.Present?
    ensures IsRun(g, acts) && After(g, acts).dir.Absent?
  {
    var m, q := g.maint.value, g.reap.token.proc;
    var s := g;
    acts := [];
    if g.reap.Read? {
      if q in g.stage { acts, s := Grow(g, acts, s, Die(q)); }
      acts, s := Grow(g, acts, s, Probe(m));
    }
    acts, s := Grow(g, acts, s, Retire(m));
  }

  lemma {:induction false} Snoc(g: Guard, acts: seq<Action>, a: Action)
    requires IsRun(g, acts) && Enabled(After(g, acts), a)
    ensures IsRun(g, acts + [a]) && After(g, acts + [a]) == Exec(After(g, acts), a)
    decreases acts
  {
    if acts == [] {
      assert acts + [a] == [a] && [a][1..] == [];
      assert IsRun(Exec(g, a), []);
    } else {
      assert (acts + [a])[1..] == acts[1..] + [a];
      Snoc(Exec(g, acts[0]), acts[1..], a);
    }
  }

  lemma Grow(g: Guard, acts: seq<Action>, s: Guard, a: Action) returns (acts': seq<Action>, s': Guard)
    requires IsRun(g, acts) && After(g, acts) == s && Enabled(s, a)
    ensures IsRun(g, acts') && After(g, acts') == s' && s' == Exec(s, a) && acts' == acts + [a]
  {
    Snoc(g, acts, a);
    acts', s' := acts + [a], Exec(s, a);
  }

  /** Such an orphan is reachable: a launcher dies right after its mkdir. */
  lemma OrphanReachable() returns (acts: seq<Action>)
    ensures IsRun(INIT, acts) && Orphaned(After(INIT, acts)) && !InFlight(After(INIT, acts))
  {
    var g;
    acts, g := Grow(INIT, [], INIT, Spawn(0, false));
    acts, g := Grow(INIT, acts, g, MakeDir(0, 7));
    acts, g := Grow(INIT, acts, g, Die(0));
  }

  // ---------- the run that breaks it ----------

  // A process outside claims the free guard.
  lemma Claim(g: Guard, acts: seq<Action>, s: Guard, p: Proc) returns (acts': seq<Action>, s': Guard)
    requires IsRun(g, acts) && After(g, acts) == s
    requires At(s, p) && s.stage[p].Outside? && s.dir.Absent? && (s.maint == Some(p) ==> s.reap.NotReaping?)
    ensures IsRun(g, acts') && After(g, acts') == s' && acts <= acts'
    ensures s' == Goto(s, p, Holding(Token(p, 0))).(dir := Present(Owner(Token(p, 0))))
  {
    acts', s' := Grow(g, acts, s, MakeDir(p, 0));
    acts', s' := Grow(g, acts', s', CreateOwner(p));
    acts', s' := Grow(g, acts', s', CompleteOwner(p));
  }

  // A holder drops the guard.
  lemma Drop(g: Guard, acts: seq<Action>, s: Guard, p: Proc) returns (acts': seq<Action>, s': Guard)
    requires IsRun(g, acts) && After(g, acts) == s
    requires Holds(s, p) && s.dir == Present(Owner(s.stage[p].token))
    ensures IsRun(g, acts') && After(g, acts') == s'
    ensures s' == Goto(s, p, Outside).(dir := Absent)
  {
    acts', s' := Grow(g, acts, s, Compare(p));
    acts', s' := Grow(g, acts', s', UnlinkOwner(p));
    acts', s' := Grow(g, acts', s', RemoveDir(p));
  }

  /**
   Reading the owner record and probing its process are two operations, and claims change hands between them:
   maintenance (0) reads launcher 1's record, 1 drops the guard and ends, launcher 2 claims it, maintenance
   finds 1 dead and renames 2's claim away, with a token other than the one it read.
   */
  lemma Robbery() returns (acts: seq<Action>, g: Guard)
    ensures IsRun(INIT, acts) && After(INIT, acts) == g
    ensures g.reap == Retired(Token(1, 0), Owner(Token(2, 0))) && g.dir.Absent? && g.maint == Some(0)
    ensures g.stage == map[0 := Outside, 2 := Holding(Token(2, 0))] && g.robbed == {2}
  {
    hide IsRun, After;
    acts, g := ReadBeforeDrop();
    acts, g := Grow(INIT, acts, g, Spawn(2, false));
    acts, g := Claim(INIT, acts, g, 2);
    acts, g := Grow(INIT, acts, g, Probe(0));
    acts, g := Grow(INIT, acts, g, Retire(0));
  }

  lemma ReadBeforeDrop() returns (acts: seq<Action>, g: Guard)
    ensures IsRun(INIT, acts) && After(INIT, acts) == g
    ensures g == Guard(Absent, map[0 := Outside], {0, 1}, Some(0), Read(Token(1, 0), true), {})
  {
    assert IsRun(INIT, []) && After(INIT, []) == INIT;
    hide IsRun, After;
    acts, g := Grow(INIT, [], INIT, Spawn(0, true));
    acts, g := Grow(INIT, acts, g, Spawn(1, false));
    acts, g := Claim(INIT, acts, g, 1);
    acts, g := Grow(INIT, acts, g, ReadOwner(0));
    acts, g := Drop(INIT, acts, g, 1);
    acts, g := Grow(INIT, acts, g, Die(1));
  }

  /** Then maintenance claims the guard beside launcher 2: two live holders, and 2's release is refused. */
  lemma TwoHolders() returns (acts: seq<Action>)
    ensures IsRun(INIT, acts)
    ensures var g := After(INIT, acts); Holds(g, 0) && Holds(g, 2) && Enabled(g, RefuseDrop(2))
  {
    hide IsRun, After;
    var g;
    acts, g := Robbery();
    acts, g := Grow(INIT, acts, g, Inspect(0));
    acts, g := Claim(INIT, acts, g, 0);
  }

  /**
   Without a record at the path nothing is decided: with the same directory, the same record read and the same
   verdict, one rename robs launcher 2, which has just made the directory, and the other takes an orphan.
   */
  lemma MissingRecordDecidesNothing() returns (acts: seq<Action>, more: seq<Action>)
    ensures IsRun(INIT, acts) && IsRun(INIT, more)
    ensures var g, h := After(INIT, acts), After(INIT, more);
            && g.dir == h.dir == Present(Missing) && g.reap == h.reap && Orderly(g) && Orderly(h)
            && Enabled(g, Retire(0)) && Robs(g, Retire(0)) && Enabled(h, Retire(0)) && !Robs(h, Retire(0))
  {
    hide IsRun, After;
    var g, h;
    acts, g := ClaimInBetween();
    assert 2 in Insiders(g);
    more, h := Grow(INIT, acts, g, Die(2));
  }

  // Launcher 2 has just made the directory when maintenance finds launcher 1, whose record it read, dead.
  lemma ClaimInBetween() returns (acts: seq<Action>, g: Guard)
    ensures IsRun(INIT, acts) && After(INIT, acts) == g
    ensures g == Guard(Present(Missing), map[0 := Outside, 2 := Made(Token(2, 0))], {0, 1, 2}, Some(0), Condemned(Token(1, 0), true), {})
  {
    hide IsRun, After;
    acts, g := ReadBeforeDrop();
    acts, g := Grow(INIT, acts, g, Spawn(2, false));
    acts, g := Grow(INIT, acts, g, MakeDir(2, 0));
    acts, g := Grow(INIT, acts, g, Probe(0));
  }

  // ---------- what is undone, and what is left ----------

  /** A claim that is given up before its record is complete leaves the guard as it was, even if the record was begun. */
  lemma AbandonedClaimIsUndone(g: Guard, p: Proc, salt: nat, begun: bool) returns (acts: seq<Action>)
    requires Valid(g) && Enabled(g, MakeDir(p, salt))
    ensures IsRun(g, acts) && AbandonClaim(p) in acts && After(g, acts) == g
  {
    assert p !in g.robbed && IsRun(g, []) && After(g, []) == g;
    hide IsRun, After;
    var s;
    acts, s := Grow(g, [], g, MakeDir(p, salt));
    if begun { acts, s := Grow(g, acts, s, CreateOwner(p)); }
    acts, s := Grow(g, acts, s, AbandonClaim(p));
    var last := |acts| - 1;
    acts, s := RemoveAll(g, acts, s, p);
    assert acts[last] == AbandonClaim(p);
    assert g.robbed - {p} == g.robbed && s.stage == g.stage;
  }

  /** Looking at a living owner's record and sparing it leaves no trace. */
  lemma SparedClaimIsUntouched(g: Guard, p: Proc)
    requires Enabled(g, ReadOwner(p))
    ensures IsRun(g, [ReadOwner(p), Spare(p)]) && After(g, [ReadOwner(p), Spare(p)]) == g
  {
    var r := Exec(g, ReadOwner(p));
    assert [ReadOwner(p), Spare(p)][1..] == [Spare(p)] && [Spare(p)][1..] == [];
    assert IsRun(Exec(r, Spare(p)), []) && Exec(r, Spare(p)) == g;
    assert IsRun(r, [Spare(p)]) && After(r, [Spare(p)]) == g;
  }

  /** The claim of an ended owner can be taken away: the guard is free again, and whoever is inside counts as robbed. */
  lemma DeadClaimIsReaped(g: Guard, p: Proc) returns (acts: seq<Action>)
    requires Enabled(g, ReadOwner(p)) && g.dir.owner.token.proc !in g.stage
    ensures IsRun(g, acts) && After(g, acts) == g.(dir := Absent, robbed := Insiders(g))
  {
    assert IsRun(g, []) && After(g, []) == g;
    hide IsRun, After;
    var s;
    acts, s := Grow(g, [], g, ReadOwner(p));
    acts, s := Grow(g, acts, s, Probe(p));
    acts, s := Grow(g, acts, s, Retire(p));
    acts, s := Grow(g, acts, s, Inspect(p));
  }

  /** A release that is refused or fails part-way leaves whatever is at the path where it is; its process alone moves. */
  lemma GivingUpLeavesClaim(g: Guard, a: Action)
    requires Enabled(g, a) && (a.RefuseDrop? || a.Leak?)
    ensures var e := Exec(g, a);
            && e.dir == g.dir && e.reap == g.reap && e.maint == g.maint && !Inside(e, a.p) && a.p !in e.robbed
            && forall q :: q in g.stage && q != a.p ==> q in e.stage && e.stage[q] == g.stage[q] && (q in e.robbed <==> q in g.robbed)
  {
  }

  /**
   A reaper that has begun can finish, whatever became of the claim meanwhile: sparing it if nothing was decided,
   taking what is at the path if its owner was condemned, and going on if nothing is there any more.
   */
  lemma ReaperFinishes(g: Guard, p: Proc) returns (acts: seq<Action>)
    requires Reaping(g, p) && !g.reap.NotReaping?
    ensures IsRun(g, acts)
    ensures After(g, acts) == if g.reap.Condemned? && g.dir.Present? then g.(reap := NotReaping, dir := Absent, robbed := Insiders(g))
                              else g.(reap := NotReaping)
  {
    assert IsRun(g, []) && After(g, []) == g;
    hide IsRun, After;
    var s := g;
    acts := [];
    if g.reap.Read? { acts, s := Grow(g, acts, s, Spare(p)); }
    if g.reap.Condemned? { acts, s := Grow(g, acts, s, Retire(p)); }
    if s.reap.Retired? { acts, s := Grow(g, acts, s, Inspect(p)); }
  }

  /**
   A claim that collides with an owner record removes the whole directory, whosever it is: maintenance robs launcher 2
   between its mkdir and its record, launcher 3 claims the free guard and holds it, and 2, whose record cannot be
   created, deletes 3's claim and claims the guard beside it.
   */
  lemma CollisionDeletesClaim() returns (acts: seq<Action>, more: seq<Action>)
    ensures IsRun(INIT, acts) && IsRun(After(INIT, acts), more) && [Collide(2)] <= more
    ensures var g := After(INIT, acts); g.dir == Present(Owner(Token(3, 0))) && Holds(g, 3)
    ensures var h := After(After(INIT, acts), more);
            h.dir == Present(Owner(Token(2, 0))) && Holds(h, 2) && Holds(h, 3) && Enabled(h, RefuseDrop(3))
  {
    hide IsRun, After;
    var g, h;
    acts, g := ClaimBesideRobbed();
    more, h := RemoveFound(g, 2);
    more, h := Claim(g, more, h, 2);
  }

  lemma ClaimBesideRobbed() returns (acts: seq<Action>, g: Guard)
    ensures IsRun(INIT, acts) && After(INIT, acts) == g
    ensures g.dir == Present(Owner(Token(3, 0))) && g.maint == Some(0)
    ensures g.stage == map[0 := Outside, 2 := Made(Token(2, 0)), 3 := Holding(Token(3, 0))]
  {
    hide IsRun, After;
    acts, g := RobbedBeforeRecord();
    acts, g := Grow(INIT, acts, g, Spawn(3, false));
    acts, g := Claim(INIT, acts, g, 3);
  }

  lemma RemoveFound(g: Guard, p: Proc) returns (acts: seq<Action>, s: Guard)
    requires Enabled(g, Collide(p))
    ensures IsRun(g, acts) && After(g, acts) == s && [Collide(p)] <= acts
    ensures s == Goto(g, p, Outside).(dir := Absent)
  {
    assert IsRun(g, []) && After(g, []) == g;
    hide IsRun, After;
    acts, s := Grow(g, [], g, Collide(p));
    acts, s := RemoveAll(g, acts, s, p);
  }

  // The directory at the guard's path is removed with its contents.
  lemma RemoveAll(g: Guard, acts: seq<Action>, s: Guard, p: Proc) returns (acts': seq<Action>, s': Guard)
    requires IsRun(g, acts) && After(g, acts) == s && At(s, p) && s.stage[p].Dropping?
    ensures IsRun(g, acts') && After(g, acts') == s' && acts <= acts' && s' == Goto(s, p, Outside).(dir := Absent)
  {
    acts', s' := Grow(g, acts, s, UnlinkOwner(p));
    acts', s' := Grow(g, acts', s', RemoveDir(p));
  }

  lemma RobbedBeforeRecord() returns (acts: seq<Action>, g: Guard)
    ensures IsRun(INIT, acts) && After(INIT, acts) == g
    ensures g.dir.Absent? && g.stage == map[0 := Outside, 2 := Made(Token(2, 0))] && g.spent == {0, 1, 2} && g.maint == Some(0)
  {
    hide IsRun, After;
    acts, g := ClaimInBetween();
    acts, g := Grow(INIT, acts, g, Retire(0));
    acts, g := Grow(INIT, acts, g, Inspect(0));
  }
}
