/**
 The Terminus-2 bridge (src/harnesses/terminus_2/bridge.py): the run loop that polls a worker process,
 with another thread setting the cancel flag at any time, and the terminal it drives.
 */
module Terminus {
  import opened Common
  import Prompt

  type Session = string

  datatype Message = Named(session: Session) | Result(terminalOutput: string) | Error(text: string) | Unknown

  // What queue.get brings within its 100 ms: a message, or nothing and the worker alive or gone.
  datatype Got = Message(message: Message) | Quiet(alive: bool)

  /**
   One turn of the loop: what the run reads of the cancel flag at the top, the deadline, the queue, and, if a
   result came, whether the worker outlives the join and what the run then reads of the flag. `cancelled` is
   the flag when the turn is over; another thread may have set it at any moment.
   */
  datatype Turn = Turn(cancelledAtTop: bool, late: bool, got: Got, lingers: bool, cancelledAtCheck: bool, cancelled: bool)

  // A flag that is set stays set.
  predicate FlagGrows(turns: seq<Turn>)
  {
    && (forall i :: 0 <= i < |turns| ==> turns[i].cancelledAtTop ==> turns[i].cancelledAtCheck)
    && (forall i :: 0 <= i < |turns| ==> turns[i].cancelledAtCheck ==> turns[i].cancelled)
    && (forall i :: 0 < i < |turns| ==> turns[i - 1].cancelled ==> turns[i].cancelledAtTop)
  }

  datatype Setup = Blank | OldPython | CannotStart | Started

  datatype Status = Completed | Failed | Cancelled

  datatype Event = ToolCall | ToolUpdate(status: Status) | Usage | Text | StopWorker(session: Session)

  datatype Ending =
    | EndTurn | CancelledTurn                                     // returned
    | PythonError | StartError | StopError | TimedOut | Exited | WorkerError // raised

  // What the bridge answers to the prompt after this ending.
  function Answer(ending: Ending): (o: Prompt.Outcome)
    ensures o == Prompt.Stopped("end_turn") <==> ending.EndTurn?
    ensures o == Prompt.Stopped("cancelled") <==> ending.CancelledTurn?
    ensures o == Prompt.Failed <==> !ending.EndTurn? && !ending.CancelledTurn?
  {
    assert |"cancelled"| != |"end_turn"|;
    match ending
    case EndTurn => Prompt.Stopped("end_turn")
    case CancelledTurn => Prompt.Stopped("cancelled")
    case _ => Prompt.Failed
  }

  // ---------- what a run should end with ----------

  // This turn does not end the run.
  predicate GoesOn(t: Turn)
  {
    !t.cancelledAtTop && !t.late &&
    match t.got
    case Quiet(alive) => alive
    case Message(m) => m.Named? || m.Unknown?
  }

  // `k` is the turn that ends the run.
  predicate LastTurn(turns: seq<Turn>, k: nat)
  {
    k < |turns| && !GoesOn(turns[k]) && forall i :: 0 <= i < k ==> GoesOn(turns[i])
  }

  predicate NeedsStop(t: Turn)
  {
    t.cancelledAtTop || t.late || !(t.got.Message? && t.got.message.Result?) || t.lingers
  }

  // `kills`: stopping the worker works. It raises where tmux is missing.
  function Verdict(t: Turn, kills: bool): Ending
    requires !GoesOn(t)
  {
    if NeedsStop(t) && !kills then StopError
    else if t.cancelledAtTop then CancelledTurn
    else if t.late then TimedOut
    else match t.got
         case Quiet(_) => Exited
         case Message(m) => if m.Error? then WorkerError else if t.cancelledAtCheck then CancelledTurn else EndTurn
  }

  class Run {
    var events: seq<Event>
    var session: Session

    constructor (session: Session)
      ensures this.session == session && events == []
    {
      this.session, events := session, [];
    }

    // Stops the worker and reports, unless stopping raises first.
    method StopAndReport(kills: bool, status: Status, ending: Ending) returns (r: Ending)
      modifies this`events
      ensures r == if kills then ending else StopError
      ensures events == old(events) + [StopWorker(session)] + if kills then [ToolUpdate(status)] else []
    {
      events := events + [StopWorker(session)];
      if !kills { return StopError; }
      events := events + [ToolUpdate(status)];
      r := ending;
    }

    /**
     A run with an instruction starts its worker and polls; `last` is the turn that ended it, `named` the last turn before that
     which named a session, both only for reference. Each way to end is told apart by what that turn found, and the
     events are exactly the tool call, the stop where one is needed, and one status in agreement with the ending, or
     none where stopping raised. What is stopped is the session named last.
     */
    method RunPrompt(setup: Setup, turns: seq<Turn>, kills: bool, child: bool)
      returns (ending: Option<Ending>, ghost last: nat, ghost named: int)
      requires events == []
      modifies this
      ensures setup.Blank? ==> ending == Some(EndTurn) && events == [Text]
      ensures setup.OldPython? ==> ending == Some(PythonError) && events == []
      ensures setup.CannotStart? ==> ending == Some(StartError) && events == [ToolCall]
      // With the worker started, the run is still polling, or turn `last` is the first that does not go on.
      ensures setup.Started? ==>
                && last <= |turns| && (ending.None? <==> last == |turns|) && (ending.None? ==> events == [ToolCall])
                && (forall i :: 0 <= i < last ==>
                      !turns[i].cancelledAtTop && !turns[i].late
                      && (turns[i].got == Quiet(true) || (turns[i].got.Message? && (turns[i].got.message.Named? || turns[i].got.message.Unknown?))))
                && (last < |turns| ==>
                      turns[last].cancelledAtTop || turns[last].late || turns[last].got == Quiet(false)
                      || (turns[last].got.Message? && (turns[last].got.message.Result? || turns[last].got.message.Error?)))
      ensures setup.Started? && ending.Some? ==>
                var t := turns[last];
                var result := !t.cancelledAtTop && !t.late && t.got.Message? && t.got.message.Result?;
                && (ending == Some(EndTurn) <==> result && !t.cancelledAtCheck && (t.lingers ==> kills))
                && (ending == Some(CancelledTurn) <==>
                      (t.cancelledAtTop && kills) || (result && t.cancelledAtCheck && (t.lingers ==> kills)))
                && (ending == Some(TimedOut) <==> kills && !t.cancelledAtTop && t.late)
                && (ending == Some(Exited) <==> kills && !t.cancelledAtTop && !t.late && t.got == Quiet(false))
                && (ending == Some(WorkerError) <==>
                      kills && !t.cancelledAtTop && !t.late && t.got.Message? && t.got.message.Error?)
                && (ending == Some(StopError) <==> !kills && (!result || t.lingers))
                && ending == Some(Verdict(t, kills)) && LastTurn(turns, last)
                && events == [ToolCall] + (if result && !t.lingers then [] else [StopWorker(session)])
                             + (match ending.value
                                case EndTurn =>
                                  [ToolUpdate(Completed)] + (if child then [Usage] else []) + [Text]
                                  + (if t.got.message.terminalOutput != "" then [Text] else [])
                                case CancelledTurn => [ToolUpdate(Cancelled)]
                                case StopError => []
                                case _ => [ToolUpdate(Failed)])
      ensures setup.Started? ==>
                && -1 <= named < last
                && (forall i :: named < i < last ==> !(turns[i].got.Message? && turns[i].got.message.Named?))
                && if named < 0 then session == old(session)
                   else turns[named].got.Message? && turns[named].got.message.Named? && session == turns[named].got.message.session
    {
      last, named := 0, -1;
      if setup.Blank? {
        events := events + [Text];
        return Some(EndTurn), last, named;
      }
      if setup.OldPython? { return Some(PythonError), last, named; }
      events := events + [ToolCall];
      if setup.CannotStart? { return Some(StartError), last, named; }
      var k := 0;
      while k < |turns|
        invariant 0 <= k <= |turns| && last == k && -1 <= named < k && events == [ToolCall]
        invariant forall i :: 0 <= i < k ==> GoesOn(turns[i])
        invariant forall i :: named < i < k ==> !(turns[i].got.Message? && turns[i].got.message.Named?)
        invariant if named < 0 then session == old(session)
                  else turns[named].got.Message? && turns[named].got.message.Named? && session == turns[named].got.message.session
      {
        var turn := turns[k];
        if turn.cancelledAtTop {
          var e := StopAndReport(kills, Cancelled, CancelledTurn);
          return Some(e), last, named;
        }
        if turn.late {
          var e := StopAndReport(kills, Failed, TimedOut);
          return Some(e), last, named;
        }
        if turn.got.Quiet? {
          if !turn.got.alive {
            var e := StopAndReport(kills, Failed, Exited);
            return Some(e), last, named;
          }
        } else {
          match turn.got.message
          case Named(name) => session, named := name, k;
          case Result(terminalOutput) =>
            var e := Finish(turn, kills, child);
            return Some(e), last, named;
          case Error(_) =>
            var e := StopAndReport(kills, Failed, WorkerError);
            return Some(e), last, named;
          case Unknown =>
        }
        k, last := k + 1, last + 1;
      }
      ending := None;
    }

    // A result came: the worker is joined, and stopped if it lingers.
    method Finish(turn: Turn, kills: bool, child: bool) returns (r: Ending)
      requires turn.got.Message? && turn.got.message.Result?
      modifies this`events
      ensures r == if turn.lingers && !kills then StopError else if turn.cancelledAtCheck then CancelledTurn else EndTurn
      ensures events == old(events) + (if turn.lingers then [StopWorker(session)] else [])
                        + (match r
                           case EndTurn =>
                             [ToolUpdate(Completed)] + (if child then [Usage] else []) + [Text]
                             + (if turn.got.message.terminalOutput != "" then [Text] else [])
                           case CancelledTurn => [ToolUpdate(Cancelled)]
                           case _ => [])
    {
      if turn.lingers {
        events := events + [StopWorker(session)];
        if !kills { return StopError; }
      }
      if turn.cancelledAtCheck {
        events := events + [ToolUpdate(Cancelled)];
        return CancelledTurn;
      }
      events := events + [ToolUpdate(Completed)];
      if child { events := events + [Usage]; }
      events := events + [Text];
      if turn.got.message.terminalOutput != "" { events := events + [Text]; }
      r := EndTurn;
    }
  }

  /**
   When a cancel is honoured. The flag was set during turn `i`, turn `k` ends the run, and stopping works.
   If turn `i` goes on, the next one ends the run as cancelled. If it is itself the last, the cancel counts
   exactly when it brought the result and the flag was set before it was checked for the last time; set later,
   the run ends as completed. A cancel that terminates the worker while the turn waits is lost: the turn finds
   the worker gone, and the prompt is answered with an error.
   */
  lemma CancelHonouredIff(turns: seq<Turn>, i: nat, k: nat)
    requires FlagGrows(turns) && LastTurn(turns, k) && i <= k && turns[i].cancelled && !turns[i].cancelledAtTop
    ensures i < k ==> k == i + 1
    ensures Answer(Verdict(turns[k], true)) == Prompt.Stopped("cancelled")
            <==> i < k || (!turns[k].late && turns[k].got.Message? && turns[k].got.message.Result? && turns[k].cancelledAtCheck)
    ensures i == k && !turns[k].late && turns[k].got == Quiet(false) ==> Verdict(turns[k], true) == Exited
  {
    if i < k { assert turns[i + 1 - 1].cancelled; }
    assert i + 1 < k ==> GoesOn(turns[i + 1]);
  }
}
