/**
 The installer lock `.install-lock` (publishInstallerLock, acquireLock): an owner record is written
 into a private claim directory, which is then renamed into place. A lock whose owner is found dead
 is renamed away and replaced. Every action is one access to the file system or one process probe,
 processes interleave freely and may die at any point. Directory renames never replace a non-empty directory.
 */
module InstallerLock {
  import opened Common

  type Proc = nat // one process lifetime

  // Device, inode and random token of one claim, with the process that made it.
  datatype Ident = Ident(proc: Proc, salt: nat)

  datatype Content = Missing | Torn | Owner(id: Ident) // the owner.json inside a claim directory

  datatype Stage =
    | Out
    | Claiming(claim: Content, stale: Option<Content>) // `stale`: a displaced lock kept for the second attempt
    | Probing                  // publishing failed because a lock is present
    | Seen(seen: Ident)        // the owner record was read
    | Condemned(seen: Ident)   // and its process found dead
    | Restoring(kept: Content)
    | Holder(id: Ident)
    | Compared(id: Ident)      // release has compared inode and token

  // `robbed` records the live holders at a time when the lock was renamed away, until they stop holding.
  datatype State = State(lock: Option<Content>, stage: map<Proc, Stage>, spent: set<Proc>, robbed: set<Proc>)

  const INIT: State := State(None, map[], {}, {})

  datatype Action =
    | Start(p: Proc)
    | Die(p: Proc)
    | MakeClaim(p: Proc)
    | CreateOwner(p: Proc)
    | WriteOwner(p: Proc, salt: nat)
    | Publish(p: Proc)
    | FailPublish(p: Proc) // any other failure while publishing
    | ReadOwner(p: Proc)
    | Condemn(p: Proc)
    | Refuse(p: Proc)      // "already being updated"
    | Displace(p: Proc)
    | Restore(p: Proc)
    | Compare(p: Proc)
    | RefuseRelease(p: Proc)
    | Release(p: Proc)
    | FailRelease(p: Proc)

  predicate Holds(s: State, p: Proc, id: Ident)
  {
    p in s.stage && (s.stage[p] == Holder(id) || s.stage[p] == Compared(id))
  }

  predicate Enabled(s: State, a: Action)
  {
    if a.Start? then a.p !in s.spent
    else
      && a.p in s.stage
      && var st := s.stage[a.p];
         match a
         case Die(_) => true
         case MakeClaim(_) => st.Out?
         case CreateOwner(_) => st.Claiming? && st.claim.Missing?
         case WriteOwner(_, _) => st.Claiming? && st.claim.Torn?
         case Publish(_) => st.Claiming? && st.claim.Owner?
         case FailPublish(_) => st.Claiming?
         case ReadOwner(_) => st.Probing? && s.lock.Some? && s.lock.value.Owner?
         // The liveness probe is sound: only ended lifetimes are condemned.
         case Condemn(_) => st.Seen? && st.seen.proc !in s.stage
         case Refuse(_) => st.Probing? || st.Seen?
         case Displace(_) => st.Condemned?
         case Restore(_) => st.Restoring?
         case Compare(_) => st.Holder? && s.lock == Some(Owner(st.id))
         case RefuseRelease(_) => st.Holder? && s.lock != Some(Owner(st.id))
         case Release(_) => st.Compared?
         case FailRelease(_) => st.Compared?
  }

  function Exec(s: State, a: Action): State
    requires Enabled(s, a)
  {
    match a
    case Start(p) => s.(stage := s.stage[p := Out], spent := s.spent + {p})
    case Die(p) => s.(stage := s.stage - {p}, robbed := s.robbed - {p})
    case MakeClaim(p) => Goto(s, p, Claiming(Missing, None))
    case CreateOwner(p) => Goto(s, p, Claiming(Torn, s.stage[p].stale))
    case WriteOwner(p, salt) => Goto(s, p, Claiming(Owner(Ident(p, salt)), s.stage[p].stale))
    case Publish(p) =>
      if s.lock.None? then Goto(s, p, Holder(s.stage[p].claim.id)).(lock := Some(s.stage[p].claim))
      else if s.stage[p].stale.None? then Goto(s, p, Probing)
      else Goto(s, p, Restoring(s.stage[p].stale.value))
    case FailPublish(p) =>
      Goto(s, p, if s.stage[p].stale.Some? then Restoring(s.stage[p].stale.value) else Out)
    case ReadOwner(p) => Goto(s, p, Seen(s.lock.value.id))
    case Condemn(p) => Goto(s, p, Condemned(s.stage[p].seen))
    case Refuse(p) => Goto(s, p, Out)
    // Whatever is at the lock's path now is renamed away, examined or not.
    case Displace(p) =>
      if s.lock.None? then Goto(s, p, Out)
      else Goto(s, p, Claiming(Missing, Some(s.lock.value))).(lock := None, robbed := Holders(s))
    case Restore(p) =>
      if s.lock.None? then Goto(s, p, Out).(lock := Some(s.stage[p].kept)) else Goto(s, p, Out)
    case Compare(p) => Goto(s, p, Compared(s.stage[p].id))
    case RefuseRelease(p) => Goto(s, p, Out)
    case Release(p) => Goto(s, p, Out).(lock := None, robbed := (s.robbed + Holders(s)) - {p})
    case FailRelease(p) => Goto(s, p, Out)
  }

  function Holders(s: State): set<Proc> { set p | p in s.stage && (s.stage[p].Holder? || s.stage[p].Compared?) }

  function Goto(s: State, p: Proc, st: Stage): State
  {
    s.(stage := s.stage[p := st], robbed := if st.Holder? || st.Compared? then s.robbed else s.robbed - {p})
  }

  predicate IsRun(s: State, acts: seq<Action>)
    decreases acts
  {
    acts == [] || (Enabled(s, acts[0]) && IsRun(Exec(s, acts[0]), acts[1..]))
  }

  function After(s: State, acts: seq<Action>): State
    requires IsRun(s, acts)
    decreases acts
  {
    if acts == [] then s else After(Exec(s, acts[0]), acts[1..])
  }

  // ---------- what holds in every run ----------

  predicate StageFits(s: State, p: Proc, st: Stage)
  {
    match st
    case Claiming(claim, stale) => (claim.Owner? ==> claim.id.proc == p) && (stale.Some? ==> stale.value.Owner?)
    case Seen(seen) => seen.proc in s.spent
    case Condemned(seen) => seen.proc in s.spent && seen.proc !in s.stage
    case Restoring(kept) => kept.Owner?
    case Holder(id) => id.proc == p
    case Compared(id) => id.proc == p
    case _ => true
  }

  ghost predicate Valid(s: State)
  {
    && s.stage.Keys <= s.spent && s.robbed <= Holders(s)
    && (s.lock.Some? ==> s.lock.value.Owner?)
    && (forall p :: p in s.stage ==> StageFits(s, p, s.stage[p]))
    && (s.lock.Some? && s.lock.value.Owner? ==> s.lock.value.id.proc in s.spent)
    && (forall p :: p in s.stage ==> Known(s, s.stage[p]))
  }

  predicate Known(s: State, st: Stage)
  {
    match st
    case Claiming(_, Some(Owner(id))) => id.proc in s.spent
    case Restoring(Owner(id)) => id.proc in s.spent
    case _ => true
  }

  lemma ValidStep(s: State, a: Action)
    requires Valid(s) && Enabled(s, a)
    ensures Valid(Exec(s, a))
  {
    var s' := Exec(s, a);
    if !a.Start? { assert StageFits(s, a.p, s.stage[a.p]) && Known(s, s.stage[a.p]); }
    forall p | p in s'.stage ensures StageFits(s', p, s'.stage[p]) && Known(s', s'.stage[p]) {
      if p in s.stage { assert StageFits(s, p, s.stage[p]) && Known(s, s.stage[p]); }
    }
  }

  lemma {:induction false} ValidRun(s: State, acts: seq<Action>)
    requires Valid(s) && IsRun(s, acts)
    ensures Valid(After(s, acts))
    decreases acts
  {
    if acts != [] {
      ValidStep(s, acts[0]);
      ValidRun(Exec(s, acts[0]), acts[1..]);
    }
  }

  /**
   In every reachable state, also after a crash at any point, a lock that is present carries a complete owner
   record; so when its owner is dead, an installer that finds the lock can go on to hold it.
   */
  lemma LockIsAlwaysReclaimable(acts: seq<Action>, p: Proc) returns (more: seq<Action>)
    requires IsRun(INIT, acts)
    ensures After(INIT, acts).lock.Some? ==> After(INIT, acts).lock.value.Owner?
    ensures IsRun(After(INIT, acts), more)
    ensures FindsDeadLock(After(INIT, acts), p) ==>
              var e := After(After(INIT, acts), more); Holds(e, p, Ident(p, 0)) && e.lock == Some(Owner(Ident(p, 0)))
  {
    ValidRun(INIT, acts);
    var s, t := After(INIT, acts), After(INIT, acts);
    hide IsRun, After, Valid;
    more, t := Nothing(s);
    if FindsDeadLock(s, p) {
      more, t := Grow(s, more, t, ReadOwner(p));
      more, t := Grow(s, more, t, Condemn(p));
      more, t := Grow(s, more, t, Displace(p));
      more, t := Offer(s, more, t, p);
    }
  }

  // An installer could not publish because of a lock whose owner has ended.
  predicate FindsDeadLock(s: State, p: Proc)
  {
    p in s.stage && s.stage[p].Probing? && s.lock.Some? && s.lock.value.Owner? && s.lock.value.id.proc !in s.stage
  }

  // ---------- mutual exclusion, and the race that breaks it ----------

  // Every live holder still owns what is at the lock's path; hence there is at most one.
  ghost predicate HoldersOwn(s: State)
  {
    forall p, id :: Holds(s, p, id) ==> s.lock == Some(Owner(id))
  }

  // The rename of a reclaimer hits the lock of a live holder.
  ghost predicate Stale(s: State, a: Action)
  {
    a.Displace? && s.lock.Some? && exists q, id :: Holds(s, q, id) && s.lock == Some(Owner(id))
  }

  ghost predicate AlwaysOwned(s: State, acts: seq<Action>)
    requires IsRun(s, acts)
    decreases acts
  {
    HoldersOwn(s) && (acts == [] || AlwaysOwned(Exec(s, acts[0]), acts[1..]))
  }

  ghost predicate NeverStale(s: State, acts: seq<Action>)
    requires IsRun(s, acts)
    decreases acts
  {
    acts == [] || (!Stale(s, acts[0]) && NeverStale(Exec(s, acts[0]), acts[1..]))
  }

  lemma OwnedStep(s: State, a: Action)
    requires Valid(s) && Enabled(s, a) && HoldersOwn(s)
    ensures HoldersOwn(Exec(s, a)) <==> !Stale(s, a)
  {
    var s' := Exec(s, a);
    if Stale(s, a) {
      var q, id :| Holds(s, q, id) && s.lock == Some(Owner(id));
      assert Holds(s', q, id) && s'.lock.None?;
    } else {
      forall q, id | Holds(s, q, id) ensures id.proc == q { assert StageFits(s, q, s.stage[q]); }
      if a.Release? { assert Holds(s, a.p, s.stage[a.p].id); }
      forall q, id | Holds(s', q, id) ensures s'.lock == Some(Owner(id)) {
        assert q != a.p || a.Compare? ==> Holds(s, q, id);
      }
    }
  }

  /**
   Exactly when the lock's path is safe: over a run, every live holder owns what lies there at all times if
   and only if no reclaiming rename of that run ever hits the lock of a live holder.
   */
  lemma {:induction false} OwnedIffNeverStale(s: State, acts: seq<Action>)
    requires Valid(s) && HoldersOwn(s) && IsRun(s, acts)
    ensures AlwaysOwned(s, acts) <==> NeverStale(s, acts)
    decreases acts
  {
    if acts != [] {
      var s' := Exec(s, acts[0]);
      ValidStep(s, acts[0]);
      OwnedStep(s, acts[0]);
      if HoldersOwn(s') {
        OwnedIffNeverStale(s', acts[1..]);
      } else {
        assert !AlwaysOwned(s', acts[1..]);
      }
    }
  }

  // ---------- at most one live holder ----------

  ghost predicate Exclusive(s: State)
  {
    forall p, q :: p in Holders(s) && q in Holders(s) ==> p == q
  }

  // A lock is published while a holder whose lock was renamed away is still at work.
  predicate Intrudes(s: State, a: Action) { a.Publish? && s.lock.None? && s.robbed != {} }

  ghost predicate ExclusiveFits(s: State)
  {
    Exclusive(s) && forall p, id :: Holds(s, p, id) ==> p in s.robbed || s.lock == Some(Owner(id))
  }

  lemma ExclusiveStep(s: State, a: Action)
    requires Valid(s) && ExclusiveFits(s) && Enabled(s, a)
    ensures if Intrudes(s, a) then !Exclusive(Exec(s, a)) else ExclusiveFits(Exec(s, a))
  {
    var s' := Exec(s, a);
    if Intrudes(s, a) {
      var p :| p in s.robbed;
      assert p in Holders(s') && a.p in Holders(s') && p != a.p;
    } else {
      forall p, id | Holds(s', p, id) ensures p in s'.robbed || s'.lock == Some(Owner(id)) {
        OneHolder(s, a, p, id);
      }
      if a.Publish? && s.lock.None? { FreeLock(s); }
      assert forall p :: p in Holders(s') ==> p in Holders(s) || p == a.p;
      assert a.p in Holders(s') ==> a.p in Holders(s) || (a.Publish? && s.lock.None?);
    }
  }

  lemma FreeLock(s: State)
    requires ExclusiveFits(s) && s.lock.None? && s.robbed == {}
    ensures Holders(s) == {}
  {
    assert forall p :: p in Holders(s) ==> Holds(s, p, s.stage[p].id);
  }

  lemma OneHolder(s: State, a: Action, p: Proc, id: Ident)
    requires Valid(s) && ExclusiveFits(s) && Enabled(s, a) && !Intrudes(s, a) && Holds(Exec(s, a), p, id)
    ensures p in Exec(s, a).robbed || Exec(s, a).lock == Some(Owner(id))
  {
    assert p != a.p || a.Compare? ==> Holds(s, p, id) && p in Holders(s);
    assert a.Release? || a.RefuseRelease? || a.FailRelease? || a.Compare? ==> a.p in Holders(s);
  }

  ghost predicate AlwaysExclusive(s: State, acts: seq<Action>)
    requires IsRun(s, acts)
    decreases acts
  {
    Exclusive(s) && (acts == [] || AlwaysExclusive(Exec(s, acts[0]), acts[1..]))
  }

  ghost predicate NeverIntruded(s: State, acts: seq<Action>)
    requires IsRun(s, acts)
    decreases acts
  {
    acts == [] || (!Intrudes(s, acts[0]) && NeverIntruded(Exec(s, acts[0]), acts[1..]))
  }

  /**
   Mutual exclusion, exactly: over a run there is at most one live holder at all times if and only if the run
   never publishes a lock while a holder lives whose own lock was renamed away.
   */
  lemma {:induction false} ExclusiveIffNeverIntruded(s: State, acts: seq<Action>)
    requires Valid(s) && ExclusiveFits(s) && IsRun(s, acts)
    ensures AlwaysExclusive(s, acts) <==> NeverIntruded(s, acts)
    decreases acts
  {
    if acts != [] {
      var s' := Exec(s, acts[0]);
      ValidStep(s, acts[0]);
      ExclusiveStep(s, acts[0]);
      if Intrudes(s, acts[0]) {
        assert !AlwaysExclusive(s', acts[1..]);
      } else {
        ExclusiveIffNeverIntruded(s', acts[1..]);
      }
    }
  }

  // Nothing happened to the lock between a reclaimer's probe and its rename.
  ghost predicate UndisturbedReclaims(s: State, acts: seq<Action>)
    requires IsRun(s, acts)
    decreases acts
  {
    acts == [] ||
    ((acts[0].Displace? ==> s.lock == Some(Owner(s.stage[acts[0].p].seen)))
     && UndisturbedReclaims(Exec(s, acts[0]), acts[1..]))
  }

  /**
   If reading the owner, probing it and renaming the lock away act as one step, then in every state
   of every run there is at most one live holder, and its release removes its own lock only.
   */
  lemma AtomicReclaimExcludes(acts: seq<Action>, p: Proc, q: Proc, i: Ident, j: Ident)
    requires IsRun(INIT, acts) && UndisturbedReclaims(INIT, acts)
    requires Holds(After(INIT, acts), p, i) && Holds(After(INIT, acts), q, j)
    ensures p == q && i == j && After(INIT, acts).lock == Some(Owner(i))
  {
    UndisturbedIsOwned(INIT, acts);
    ValidRun(INIT, acts);
    var s := After(INIT, acts);
    assert StageFits(s, p, s.stage[p]) && StageFits(s, q, s.stage[q]);
  }

  lemma {:induction false} UndisturbedIsOwned(s: State, acts: seq<Action>)
    requires Valid(s) && HoldersOwn(s) && IsRun(s, acts) && UndisturbedReclaims(s, acts)
    ensures HoldersOwn(After(s, acts)) && NeverStale(s, acts)
    decreases acts
  {
    if acts != [] {
      var a := acts[0];
      if a.Displace? {
        assert StageFits(s, a.p, s.stage[a.p]);
        assert forall q, id :: Holds(s, q, id) ==> StageFits(s, q, s.stage[q]) && id.proc == q;
      }
      ValidStep(s, a);
      OwnedStep(s, a);
      UndisturbedIsOwned(Exec(s, a), acts[1..]);
    }
  }

  lemma {:induction false} Snoc(s: State, acts: seq<Action>, a: Action)
    requires IsRun(s, acts) && Enabled(After(s, acts), a)
    ensures IsRun(s, acts + [a]) && After(s, acts + [a]) == Exec(After(s, acts), a)
    decreases acts
  {
    if acts == [] {
      assert acts + [a] == [a] && [a][1..] == [];
      assert IsRun(Exec(s, a), []);
    } else {
      assert (acts + [a])[1..] == acts[1..] + [a];
      Snoc(Exec(s, acts[0]), acts[1..], a);
    }
  }

  lemma Nothing(s: State) returns (acts: seq<Action>, t: State)
    ensures IsRun(s, acts) && After(s, acts) == t && t == s && acts == []
  {
    acts, t := [], s;
  }

  lemma Grow(s: State, acts: seq<Action>, t: State, a: Action) returns (acts': seq<Action>, t': State)
    requires IsRun(s, acts) && After(s, acts) == t && Enabled(t, a)
    ensures IsRun(s, acts') && After(s, acts') == t' && t' == Exec(t, a) && acts' == acts + [a]
  {
    Snoc(s, acts, a);
    acts', t' := acts + [a], Exec(t, a);
  }

  // A claim directory is made, described and offered for publication.
  lemma Offer(s: State, acts: seq<Action>, t: State, p: Proc) returns (acts': seq<Action>, t': State)
    requires IsRun(s, acts) && After(s, acts) == t
    requires p in t.stage && t.stage[p].Claiming? && t.stage[p].claim.Missing? && p !in t.robbed
    requires t.lock.Some? ==> t.stage[p].stale.None?
    ensures IsRun(s, acts') && After(s, acts') == t'
    ensures t' == if t.lock.None? then t.(lock := Some(Owner(Ident(p, 0))), stage := t.stage[p := Holder(Ident(p, 0))])
                  else t.(stage := t.stage[p := Probing])
  {
    hide IsRun, After;
    acts', t' := Grow(s, acts, t, CreateOwner(p));
    acts', t' := Grow(s, acts', t', WriteOwner(p, 0));
    acts', t' := Grow(s, acts', t', Publish(p));
    assert t.robbed - {p} == t.robbed;
  }

  lemma Try(s: State, acts: seq<Action>, t: State, p: Proc) returns (acts': seq<Action>, t': State)
    requires IsRun(s, acts) && After(s, acts) == t && p !in t.spent && p !in t.stage && p !in t.robbed
    ensures IsRun(s, acts') && After(s, acts') == t'
    ensures t' == if t.lock.None?
                  then t.(lock := Some(Owner(Ident(p, 0))), stage := t.stage[p := Holder(Ident(p, 0))], spent := t.spent + {p})
                  else t.(stage := t.stage[p := Probing], spent := t.spent + {p})
  {
    hide IsRun, After;
    acts', t' := Grow(s, acts, t, Start(p));
    acts', t' := Grow(s, acts', t', MakeClaim(p));
    assert t.robbed - {p} == t.robbed;
    acts', t' := Offer(s, acts', t', p);
  }

  // ---------- release, restoration, refusal ----------

  /**
   A holder that finds its own lock can release it: the path is free then, and whichever installer starts next holds
   the lock, with its own record at the path.
   */
  lemma ReleaseFreesLock(s: State, p: Proc, q: Proc) returns (acts: seq<Action>, more: seq<Action>)
    requires Valid(s) && Enabled(s, Compare(p)) && q !in s.spent
    ensures IsRun(s, acts) && IsRun(After(s, acts), more)
    ensures var e := After(s, acts); e.lock.None? && e.stage == s.stage[p := Out]
    ensures var e := After(After(s, acts), more);
            e.lock == Some(Owner(Ident(q, 0))) && e.stage == s.stage[p := Out][q := Holder(Ident(q, 0))]
  {
    assert q !in s.stage && q !in Holders(s);
    var t, u := s, s;
    hide IsRun, After, Valid;
    acts, t := Nothing(s);
    acts, t := Grow(s, acts, t, Compare(p));
    acts, t := Grow(s, acts, t, Release(p));
    more, u := Nothing(t);
    more, u := Try(t, more, u, q);
  }

  /**
   A reclaim that cannot publish its own lock puts the displaced one back, as long as the path is still free: all but
   the reclaimer stands where it stood.
   */
  lemma FailedReclaimRestores(s: State, p: Proc) returns (acts: seq<Action>)
    requires Enabled(s, Displace(p)) && s.lock.Some?
    ensures IsRun(s, acts) && Displace(p) in acts
    ensures var e := After(s, acts); e.lock == s.lock && e.stage == s.stage[p := Out] && e.spent == s.spent
  {
    var t := s;
    hide IsRun, After;
    acts, t := Nothing(s);
    acts, t := Grow(s, acts, t, Displace(p));
    acts, t := Grow(s, acts, t, FailPublish(p));
    acts, t := Grow(s, acts, t, Restore(p));
    assert t.stage == s.stage[p := Out];
    assert acts[0] == Displace(p);
  }

  /**
   A reclaimer that finds another lock in place when it publishes its own leaves that lock alone; but if it is released
   before the reclaimer is done, the lock of the dead owner is put back.
   */
  lemma BeatenReclaimRestores(s: State, p: Proc, q: Proc) returns (acts: seq<Action>)
    requires Valid(s) && Enabled(s, Publish(p)) && s.stage[p].stale.Some? && Enabled(s, Compare(q))
    ensures IsRun(s, [Publish(p)] + acts)
    ensures Exec(s, Publish(p)).lock == s.lock
    ensures var e := After(s, [Publish(p)] + acts); e.lock == s.stage[p].stale && e.stage == s.stage[p := Out][q := Out]
  {
    var t := Exec(s, Publish(p));
    var u := t;
    hide IsRun, After;
    acts, u := Nothing(t);
    acts, u := Grow(t, acts, u, Compare(q));
    acts, u := Grow(t, acts, u, Release(q));
    acts, u := Grow(t, acts, u, Restore(p));
    assert u.stage == s.stage[p := Out][q := Out];
    Cons(s, Publish(p), acts);
  }

  lemma Cons(s: State, a: Action, rest: seq<Action>)
    requires Enabled(s, a) && IsRun(Exec(s, a), rest)
    ensures IsRun(s, [a] + rest) && After(s, [a] + rest) == After(Exec(s, a), rest)
  {
    assert ([a] + rest)[1..] == rest;
  }

  /** Nothing but a publication, a reclaim, a restoration or a release changes what lies at the lock's path. */
  lemma OthersLeaveLock(s: State, a: Action)
    requires Enabled(s, a)
    ensures Exec(s, a).lock != s.lock ==>
              (s.lock.None? && (a.Publish? || a.Restore?)) || (s.lock.Some? && (a.Displace? || a.Release?))
    ensures forall q :: q in s.stage && q != a.p ==> q in Exec(s, a).stage && Exec(s, a).stage[q] == s.stage[q]
  {
  }

  lemma TryAndCondemn(s: State, acts: seq<Action>, t: State, p: Proc, dead: Ident) returns (acts': seq<Action>, t': State)
    requires IsRun(s, acts) && After(s, acts) == t && p !in t.spent && p !in t.stage && p !in t.robbed
    requires t.lock == Some(Owner(dead)) && dead.proc !in t.stage && dead.proc != p
    ensures IsRun(s, acts') && After(s, acts') == t'
    ensures t' == t.(stage := t.stage[p := Condemned(dead)], spent := t.spent + {p})
  {
    hide IsRun, After;
    acts', t' := Try(s, acts, t, p);
    assert t.robbed - {p} == t.robbed;
    acts', t' := Grow(s, acts', t', ReadOwner(p));
    acts', t' := Grow(s, acts', t', Condemn(p));
  }

  lemma BothCondemn() returns (acts: seq<Action>, t: State)
    ensures IsRun(INIT, acts) && After(INIT, acts) == t
    ensures t == State(Some(Owner(Ident(0, 0))), map[1 := Condemned(Ident(0, 0)), 2 := Condemned(Ident(0, 0))], {0, 1, 2}, {})
  {
    hide IsRun, After;
    acts, t := Nothing(INIT);
    acts, t := Try(INIT, acts, t, 0);
    acts, t := Grow(INIT, acts, t, Die(0));
    acts, t := TryAndCondemn(INIT, acts, t, 1, Ident(0, 0));
    acts, t := TryAndCondemn(INIT, acts, t, 2, Ident(0, 0));
  }

  /**
   Probe and rename are two operations in the code, and another installer fits between them: both
   1 and 2 find the lock of the dead 0, 1 reclaims it, and 2 renames 1's new lock away. Both hold.
   */
  lemma ReclaimRace() returns (acts: seq<Action>)
    ensures IsRun(INIT, acts)
    ensures var s := After(INIT, acts);
            Holds(s, 1, Ident(1, 0)) && Holds(s, 2, Ident(2, 0)) && s.lock == Some(Owner(Ident(2, 0)))
  {
    hide IsRun, After;
    var t;
    acts, t := BothCondemn();
    acts, t := Grow(INIT, acts, t, Displace(1));
    acts, t := Offer(INIT, acts, t, 1);
    acts, t := Grow(INIT, acts, t, Displace(2));
    acts, t := Offer(INIT, acts, t, 2);
  }
}
