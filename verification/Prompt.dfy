/**
 The prompt protocol of the ACP bridge (src/harnesses/acp_bridge.py): the main thread reads one message
 after another, and every accepted prompt runs on a worker thread of its own. Every action is one access
 to shared state, so the two threads interleave freely. Messages are numbered as they are read. Sends
 succeed; a run may end in any way, at any time after it started.
 */
module Prompt {
  import opened Common

  type Id = nat

  datatype Outcome = Stopped(reason: string) | Failed | AlreadyRunning | CancelDone

  datatype Main =
    | Idle
    | Asked(id: Id)       // a prompt was read, _cancel_current not yet looked at
    | Refusing(id: Id)
    | Making(id: Id)      // about to call make_prompt_runner
    | Made(id: Id)        // about to set _cancel_current
    | Starting(id: Id)    // about to start the worker
    | Cancelling(id: Id)  // a cancel was read
    | Loaded(id: Id, target: Option<Id>)
    | Replying(id: Id)

  datatype Worker = Running | Ended(outcome: Outcome) | Answered

  /**
   `current` is the prompt whose cancel function _cancel_current holds. The rest records what happened:
   `answers` the responses sent, `lost` the messages whose handling raised, `started` the prompts that
   became current, `hits` the pairs of a cancel and the prompt it cancelled.
   */
  datatype Bridge = Bridge(next: Id, main: Main, workers: map<Id, Worker>, current: Option<Id>,
                           answers: map<Id, seq<Outcome>>, lost: set<Id>, started: set<Id>, hits: set<(Id, Id)>)

  const INIT := Bridge(0, Idle, map[], None, map[], {}, {}, {})

  datatype Action =
    | ReadPrompt
    | ReadCancel
    | Check
    | Refuse
    | Make(works: bool)   // make_prompt_runner may raise
    | Assign
    | Start(works: bool)  // Thread.start may raise
    | Load
    | Call(works: bool)   // the cancel function may raise
    | Reply
    | End(p: Id, outcome: Outcome)
    | Answer(p: Id)
    | Clear(p: Id)

  predicate Enabled(b: Bridge, a: Action)
  {
    match a
    case ReadPrompt => b.main.Idle?
    case ReadCancel => b.main.Idle?
    case Check => b.main.Asked?
    case Refuse => b.main.Refusing?
    case Make(_) => b.main.Making?
    case Assign => b.main.Made?
    case Start(_) => b.main.Starting?
    case Load => b.main.Cancelling?
    case Call(works) => b.main.Loaded? && (b.main.target.None? ==> works)
    case Reply => b.main.Replying?
    case End(p, o) => p in b.workers && b.workers[p].Running? && (o.Stopped? || o.Failed?)
    case Answer(p) => p in b.workers && b.workers[p].Ended?
    case Clear(p) => p in b.workers && b.workers[p].Answered?
  }

  function Answers(b: Bridge, id: Id): seq<Outcome>
  {
    if id in b.answers then b.answers[id] else []
  }

  function Send(b: Bridge, id: Id, o: Outcome): Bridge
  {
    b.(answers := b.answers[id := Answers(b, id) + [o]])
  }

  function Exec(b: Bridge, a: Action): Bridge
    requires Enabled(b, a)
  {
    match a
    case ReadPrompt => b.(main := Asked(b.next), next := b.next + 1)
    case ReadCancel => b.(main := Cancelling(b.next), next := b.next + 1)
    case Check => b.(main := if b.current.Some? then Refusing(b.main.id) else Making(b.main.id))
    case Refuse => Send(b, b.main.id, AlreadyRunning).(main := Idle)
    case Make(works) => if works then b.(main := Made(b.main.id)) else b.(main := Idle, lost := b.lost + {b.main.id})
    case Assign => b.(main := Starting(b.main.id), current := Some(b.main.id), started := b.started + {b.main.id})
    case Start(works) =>
      if works then b.(main := Idle, workers := b.workers[b.main.id := Running])
      else b.(main := Idle, lost := b.lost + {b.main.id})
    case Load => b.(main := Loaded(b.main.id, b.current))
    case Call(works) =>
      var hits := if b.main.target.Some? then b.hits + {(b.main.id, b.main.target.value)} else b.hits;
      if works then b.(main := Replying(b.main.id), hits := hits)
      else b.(main := Idle, lost := b.lost + {b.main.id}, hits := hits)
    case Reply => Send(b, b.main.id, CancelDone).(main := Idle)
    case End(p, o) => b.(workers := b.workers[p := Ended(o)])
    case Answer(p) => Send(b, p, b.workers[p].outcome).(workers := b.workers[p := Answered])
    case Clear(p) => b.(workers := b.workers - {p}, current := None)
  }

  predicate IsRun(b: Bridge, acts: seq<Action>)
    decreases acts
  {
    acts == [] || (Enabled(b, acts[0]) && IsRun(Exec(b, acts[0]), acts[1..]))
  }

  function After(b: Bridge, acts: seq<Action>): Bridge
    requires IsRun(b, acts)
    decreases acts
  {
    if acts == [] then b else After(Exec(b, acts[0]), acts[1..])
  }

  // ---------- the invariant ----------

  // The bridge still owes this message something.
  predicate Pending(b: Bridge, id: Id)
  {
    (!b.main.Idle? && b.main.id == id) || (id in b.workers && !b.workers[id].Answered?)
  }

  predicate Dropped(b: Bridge, id: Id) { id in b.lost }

  // Prompt `p` became current and its worker could not be started.
  predicate Stranded(b: Bridge, p: Id) { p in b.started && p in b.lost }

  predicate MainFits(b: Bridge)
  {
    && (!b.main.Idle? ==> b.main.id + 1 == b.next && b.main.id !in b.lost && b.main.id !in b.workers)
    && (b.main.Asked? || b.main.Making? || b.main.Made? ==> b.main.id !in b.started)
    && (b.main.Making? || b.main.Made? ==> b.current.None?)
    && (b.main.Starting? ==> b.current == Some(b.main.id))
  }

  // `p` is the newest prompt that became current before message `c` was read.
  ghost predicate Newest(b: Bridge, p: Id, c: Id)
  {
    p in b.started && p < c && forall q :: q in b.started ==> q <= p || c < q
  }

  ghost predicate CurrentFits(b: Bridge)
  {
    && (b.current.Some? ==> Newest(b, b.current.value, b.next))
    && (forall p :: p in b.workers ==> b.current == Some(p))
    && (forall p: Id :: Stranded(b, p) ==> b.current == Some(p) && p !in b.workers)
    && (b.current.Some? ==> b.current.value in b.workers || Stranded(b, b.current.value) || b.main == Starting(b.current.value))
  }

  predicate PromptInHand(b: Bridge)
  {
    b.main.Asked? || b.main.Refusing? || b.main.Making? || b.main.Made? || b.main.Starting?
  }

  ghost predicate CancelsFit(b: Bridge)
  {
    && (b.main.Loaded? && b.main.target.Some? ==> Newest(b, b.main.target.value, b.main.id))
    && (forall h :: h in b.hits ==> Newest(b, h.1, h.0) && h.0 < b.next && (PromptInHand(b) ==> h.0 < b.main.id))
  }

  ghost predicate AnswersFit(b: Bridge)
  {
    && (forall id: Id :: id in b.lost || id in b.started ==> id < b.next)
    && (forall id: Id :: |Answers(b, id)| == if id < b.next && !Pending(b, id) && !Dropped(b, id) then 1 else 0)
  }

  ghost predicate Valid(b: Bridge)
  {
    MainFits(b) && CurrentFits(b) && CancelsFit(b) && AnswersFit(b)
  }

  lemma StepCurrent(b: Bridge, a: Action)
    requires Valid(b) && Enabled(b, a)
    ensures MainFits(Exec(b, a)) && CurrentFits(Exec(b, a))
  {
  }

  lemma StepCancels(b: Bridge, a: Action)
    requires Valid(b) && Enabled(b, a)
    ensures CancelsFit(Exec(b, a))
  {
    var e := Exec(b, a);
    forall h | h in e.hits ensures Newest(e, h.1, h.0) && h.0 < e.next && (PromptInHand(e) ==> h.0 < e.main.id) {
      if h in b.hits { assert Newest(b, h.1, h.0); }
    }
  }

  lemma StepAnswers(b: Bridge, a: Action)
    requires Valid(b) && Enabled(b, a)
    ensures AnswersFit(Exec(b, a))
  {
    var e := Exec(b, a);
    forall id: Id
      ensures |Answers(e, id)| == if id < e.next && !Pending(e, id) && !Dropped(e, id) then 1 else 0
    {
      assert |Answers(b, id)| == if id < b.next && !Pending(b, id) && !Dropped(b, id) then 1 else 0;
    }
  }

  lemma ValidStep(b: Bridge, a: Action)
    requires Valid(b) && Enabled(b, a)
    ensures Valid(Exec(b, a))
  {
    StepCurrent(b, a);
    StepCancels(b, a);
    StepAnswers(b, a);
  }

  lemma {:induction false} ValidRun(b: Bridge, acts: seq<Action>)
    requires Valid(b) && IsRun(b, acts)
    ensures Valid(After(b, acts))
    decreases acts
  {
    if acts != [] {
      ValidStep(b, acts[0]);
      ValidRun(Exec(b, acts[0]), acts[1..]);
    }
  }

  // ---------- what every run keeps ----------

  /** At most one worker exists at any time, and a cancel read now would reach that worker's prompt. */
  lemma AtMostOneWorker(acts: seq<Action>, p: Id, q: Id)
    requires IsRun(INIT, acts) && p in After(INIT, acts).workers && q in After(INIT, acts).workers
    ensures p == q && After(INIT, acts).current == Some(p)
  {
    ValidRun(INIT, acts);
  }

  /**
   Every message read is answered exactly once, unless its handling is still under way or raised before a
   worker took it over; then it is not answered at all.
   */
  lemma ExactlyOneAnswer(acts: seq<Action>, id: Id)
    requires IsRun(INIT, acts)
    ensures var b := After(INIT, acts);
            |Answers(b, id)| <= 1
            && (|Answers(b, id)| == 1 <==> id < b.next && !Pending(b, id) && !Dropped(b, id))
  {
    ValidRun(INIT, acts);
  }

  /** A cancel reaches only the newest prompt started before it was read, never one started later. */
  lemma CancelReachesNewest(acts: seq<Action>, c: Id, p: Id)
    requires IsRun(INIT, acts) && (c, p) in After(INIT, acts).hits
    ensures Newest(After(INIT, acts), p, c)
  {
    ValidRun(INIT, acts);
  }

  /** And it does reach it: while a worker exists, a cancel that works is recorded for its prompt and answered. */
  lemma CancelReachesWorker(acts: seq<Action>, p: Id)
    requires IsRun(INIT, acts)
    requires After(INIT, acts).main.Cancelling? && p in After(INIT, acts).workers
    ensures var b := After(INIT, acts); var e := [Load, Call(true), Reply];
            IsRun(b, e) && (b.main.id, p) in After(b, e).hits && Answers(After(b, e), b.main.id) == [CancelDone]
  {
    ValidRun(INIT, acts);
    var b := After(INIT, acts);
    assert |Answers(b, b.main.id)| == 0;
    var b1 := Exec(b, Load);
    var b2 := Exec(b1, Call(true));
    Cons(b2, Reply, []);
    Cons(b1, Call(true), [Reply]);
    Cons(b, Load, [Call(true)] + [Reply]);
    assert [Load] + ([Call(true)] + [Reply]) == [Load, Call(true), Reply];
  }

  // ---------- when a prompt is refused ----------

  /** A prompt is refused exactly while a worker exists, answered or not, or once a worker could not start. */
  lemma RefusedIff(acts: seq<Action>)
    requires IsRun(INIT, acts) && After(INIT, acts).main.Asked?
    ensures var b := After(INIT, acts);
            Exec(b, Check).main.Refusing? <==> b.workers != map[] || exists p: Id :: Stranded(b, p)
  {
    ValidRun(INIT, acts);
    var b := After(INIT, acts);
    if b.workers != map[] {
      var p :| p in b.workers;
    }
  }

  /** Once a worker could not be started, no prompt is ever accepted again. */
  lemma {:induction false} StrandedForever(b: Bridge, acts: seq<Action>, p: Id)
    requires Valid(b) && IsRun(b, acts) && Stranded(b, p)
    ensures var e := After(b, acts); Stranded(e, p) && e.workers == map[] && e.started == b.started
    decreases acts
  {
    assert b.workers == map[] by { assert forall q :: q in b.workers ==> q == p; }
    if acts != [] {
      ValidStep(b, acts[0]);
      StrandedForever(Exec(b, acts[0]), acts[1..], p);
    }
  }

  lemma Cons(b: Bridge, a: Action, rest: seq<Action>)
    requires Enabled(b, a) && IsRun(Exec(b, a), rest)
    ensures IsRun(b, [a] + rest) && After(b, [a] + rest) == After(Exec(b, a), rest)
  {
    assert ([a] + rest)[1..] == rest;
  }

  /**
   A client that waits for the answer before it sends the next prompt can still be refused: the worker
   answers before it clears the prompt it ran.
   */
  lemma RefusedAfterAnswer(b: Bridge, p: Id) returns (acts: seq<Action>)
    requires Valid(b) && b.main.Idle? && p in b.workers && b.workers[p].Answered?
    ensures |Answers(b, p)| == 1
    ensures IsRun(b, acts) && Answers(After(b, acts), b.next) == [AlreadyRunning]
  {
    assert |Answers(b, p)| == 1 && |Answers(b, b.next)| == 0;
    var b1 := Exec(b, ReadPrompt);
    var b2 := Exec(b1, Check);
    Cons(b2, Refuse, []);
    Cons(b1, Check, [Refuse]);
    Cons(b, ReadPrompt, [Check] + [Refuse]);
    acts := [ReadPrompt] + ([Check] + [Refuse]);
  }

  /** With no worker left and none stranded, the next prompt can be run to any outcome and is answered with it. */
  lemma PromptServed(b: Bridge, outcome: Outcome) returns (acts: seq<Action>)
    requires Valid(b) && b.main.Idle? && b.workers == map[] && (forall p: Id :: !Stranded(b, p))
    requires outcome.Stopped? || outcome.Failed?
    ensures IsRun(b, acts)
    ensures var e := After(b, acts); Answers(e, b.next) == [outcome] && e.main.Idle? && e.workers == map[] && e.current.None?
  {
    var n := b.next;
    assert |Answers(b, n)| == 0;
    var b1 := Exec(b, ReadPrompt);
    var b2 := Exec(b1, Check);
    var b3 := Exec(b2, Make(true));
    var b4 := Exec(b3, Assign);
    var b5 := Exec(b4, Start(true));
    acts := [Clear(n)];
    var b6 := Exec(b5, End(n, outcome));
    var b7 := Exec(b6, Answer(n));
    Cons(b7, Clear(n), []);
    Cons(b6, Answer(n), acts);
    acts := [Answer(n)] + acts;
    Cons(b5, End(n, outcome), acts);
    acts := [End(n, outcome)] + acts;
    Cons(b4, Start(true), acts);
    acts := [Start(true)] + acts;
    Cons(b3, Assign, acts);
    acts := [Assign] + acts;
    Cons(b2, Make(true), acts);
    acts := [Make(true)] + acts;
    Cons(b1, Check, acts);
    acts := [Check] + acts;
    Cons(b, ReadPrompt, acts);
    acts := [ReadPrompt] + acts;
  }

  lemma Four(b: Bridge, a1: Action, a2: Action, a3: Action, a4: Action)
    requires Enabled(b, a1) && Enabled(Exec(b, a1), a2) && Enabled(Exec(Exec(b, a1), a2), a3)
    requires Enabled(Exec(Exec(Exec(b, a1), a2), a3), a4)
    ensures IsRun(b, [a1, a2, a3, a4]) && After(b, [a1, a2, a3, a4]) == Exec(Exec(Exec(Exec(b, a1), a2), a3), a4)
    ensures IsRun(b, [a1, a2, a3]) && After(b, [a1, a2, a3]) == Exec(Exec(Exec(b, a1), a2), a3)
  {
    hide Enabled, Exec;
    var b1 := Exec(b, a1);
    var b2 := Exec(b1, a2);
    var b3 := Exec(b2, a3);
    Cons(b3, a4, []);
    Cons(b2, a3, [a4]);
    Cons(b2, a3, []);
    Cons(b1, a2, [a3] + [a4]);
    Cons(b1, a2, [a3]);
    Cons(b, a1, [a2] + ([a3] + [a4]));
    Cons(b, a1, [a2] + [a3]);
    assert [a1] + ([a2] + ([a3] + [a4])) == [a1, a2, a3, a4] && [a1] + ([a2] + [a3]) == [a1, a2, a3];
  }

  lemma NextIsUnanswered(b: Bridge)
    requires Valid(b)
    ensures Answers(b, b.next) == []
  {
    assert |Answers(b, b.next)| == 0;
  }

  /** A cancel that finds no prompt is answered and does nothing else. */
  lemma IdleCancel(b: Bridge)
    requires Valid(b) && b.main.Idle? && b.current.None?
    ensures IsRun(b, [ReadCancel, Load, Call(true), Reply])
    ensures After(b, [ReadCancel, Load, Call(true), Reply]) == b.(next := b.next + 1, answers := b.answers[b.next := [CancelDone]])
  {
    NextIsUnanswered(b);
    hide Valid, IsRun, After;
    assert [] + [CancelDone] == [CancelDone];
    Four(b, ReadCancel, Load, Call(true), Reply);
  }

  /** A cancel whose cancel function raises has cancelled its prompt all the same, but is not answered. */
  lemma RaisingCancel(b: Bridge)
    requires b.main.Idle? && b.current.Some?
    ensures IsRun(b, [ReadCancel, Load, Call(false)])
    ensures After(b, [ReadCancel, Load, Call(false)])
            == b.(next := b.next + 1, hits := b.hits + {(b.next, b.current.value)}, lost := b.lost + {b.next})
  {
    hide IsRun, After;
    Four(b, ReadCancel, Load, Call(false), ReadPrompt);
  }

  /**
   A prompt whose runner cannot be made is dropped and forgotten: the next one is served as if it had never come. One
   whose worker cannot be started is dropped too, but stays current.
   */
  lemma DroppedPrompts(b: Bridge) returns (made: Bridge, stranded: Bridge)
    requires Valid(b) && b.main.Idle? && b.current.None?
    ensures IsRun(b, [ReadPrompt, Check, Make(false)]) && After(b, [ReadPrompt, Check, Make(false)]) == made
    ensures made == b.(next := b.next + 1, lost := b.lost + {b.next})
    ensures IsRun(b, [ReadPrompt, Check, Make(true), Assign, Start(false)])
    ensures After(b, [ReadPrompt, Check, Make(true), Assign, Start(false)]) == stranded
    ensures stranded == made.(current := Some(b.next), started := b.started + {b.next}) && Stranded(stranded, b.next)
  {
    Four(b, ReadPrompt, Check, Make(false), ReadPrompt);
    made := After(b, [ReadPrompt, Check, Make(false)]);
    var asked := Exec(b, ReadPrompt);
    Four(asked, Check, Make(true), Assign, Start(false));
    Cons(b, ReadPrompt, [Check, Make(true), Assign, Start(false)]);
    assert [ReadPrompt] + [Check, Make(true), Assign, Start(false)] == [ReadPrompt, Check, Make(true), Assign, Start(false)];
    stranded := After(b, [ReadPrompt, Check, Make(true), Assign, Start(false)]);
  }

  // ---------- progress ----------

  predicate Reads(a: Action) { a.ReadPrompt? || a.ReadCancel? }

  function WorkerRank(w: Worker): nat
  {
    match w case Running => 3 case Ended(_) => 2 case Answered => 1
  }

  // How many steps can follow before another message is read.
  function Rank(b: Bridge): nat
  {
    (match b.main
     case Idle => 0
     case Asked(_) => 7
     case Refusing(_) => 1
     case Making(_) => 6
     case Made(_) => 5
     case Starting(_) => 4
     case Cancelling(_) => 3
     case Loaded(_, _) => 2
     case Replying(_) => 1)
    + if b.current.Some? && b.current.value in b.workers then WorkerRank(b.workers[b.current.value]) else 0
  }

  // The next step of whoever owes one.
  function Pick(b: Bridge): Action
  {
    match b.main
    case Asked(_) => Check
    case Refusing(_) => Refuse
    case Making(_) => Make(true)
    case Made(_) => Assign
    case Starting(_) => Start(true)
    case Cancelling(_) => Load
    case Loaded(_, _) => Call(true)
    case Replying(_) => Reply
    case Idle =>
      if b.current.Some? && b.current.value in b.workers
      then match b.workers[b.current.value]
           case Running => End(b.current.value, Failed)
           case Ended(_) => Answer(b.current.value)
           case Answered => Clear(b.current.value)
      else ReadPrompt
  }

  lemma RankStep(b: Bridge, a: Action)
    requires Valid(b) && Enabled(b, a) && !Reads(a)
    ensures Rank(Exec(b, a)) < Rank(b)
  {
  }

  /**
   Without new messages the bridge takes at most `Rank` steps, and it can only stop where every message
   read so far has its one answer or raised; until then some step is possible.
   */
  lemma {:induction false} EveryMessageSettles(b: Bridge, acts: seq<Action>)
    requires Valid(b) && IsRun(b, acts) && forall i :: 0 <= i < |acts| ==> !Reads(acts[i])
    ensures |acts| + Rank(After(b, acts)) <= Rank(b)
    ensures var e := After(b, acts);
            if Rank(e) > 0 then Enabled(e, Pick(e)) && !Reads(Pick(e))
            else forall id: Id :: id < e.next ==> |Answers(e, id)| == if Dropped(e, id) then 0 else 1
    decreases acts
  {
    if acts == [] {
      assert forall id: Id :: |Answers(b, id)| == if id < b.next && !Pending(b, id) && !Dropped(b, id) then 1 else 0;
    } else {
      ValidStep(b, acts[0]);
      RankStep(b, acts[0]);
      EveryMessageSettles(Exec(b, acts[0]), acts[1..]);
    }
  }
}
