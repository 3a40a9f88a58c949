/** The terminal the Terminus-2 worker drives (LocalTmuxSession in src/harnesses/terminus_2/bridge.py). */
module Tmux {

  // One tmux send-keys call: a text typed as it is, or a named key.
  datatype Key = Literal(text: string) | Enter | Control(name: string)

  // What the keys type.
  function Typed(keys: seq<Key>): string
  {
    if keys == [] then ""
    else
      Typed(keys[..|keys| - 1]) +
      match keys[|keys| - 1]
      case Literal(text) => text
      case Enter => "\n"
      case Control(_) => ""
  }

  lemma TypedAppend(keys: seq<Key>, k: Key)
    ensures Typed(keys + [k]) == Typed(keys) + match k case Literal(text) => text case Enter => "\n" case Control(_) => ""
  {
    assert (keys + [k])[..|keys|] == keys;
  }

  // The text between line breaks; the empty text has one part.
  function Lines(s: string): (parts: seq<string>)
    ensures |parts| > 0 && forall i :: 0 <= i < |parts| ==> '\n' !in parts[i]
  {
    if s == "" then [""]
    else
      var rest := Lines(s[1..]);
      if s[0] == '\n' then [""] + rest else [[s[0]] + rest[0]] + rest[1..]
  }

  function Unlines(parts: seq<string>): string
  {
    if parts == [] then "" else if |parts| == 1 then parts[0] else parts[0] + "\n" + Unlines(parts[1..])
  }

  lemma {:induction false} UnlinesOfLines(s: string)
    ensures Unlines(Lines(s)) == s
  {
    if s != "" {
      UnlinesOfLines(s[1..]);
      var rest := Lines(s[1..]);
      assert s == [s[0]] + s[1..];
      if s[0] == '\n' {
        assert ([""] + rest)[1..] == rest;
      } else {
        assert Lines(s)[1..] == rest[1..];
      }
    }
  }

  // A line and the break after it.
  function Line(line: string, last: bool): string { line + if last then "" else "\n" }

  lemma UnlinesFrom(parts: seq<string>, i: nat)
    requires i < |parts|
    ensures Unlines(parts[i..]) == Line(parts[i], i == |parts| - 1) + Unlines(parts[i + 1..])
  {
    assert parts[i..][1..] == parts[i + 1..];
  }

  lemma Continues(typed: string, line: string, last: bool, rest: string)
    ensures (typed + Line(line, last)) + rest == typed + (Line(line, last) + rest)
    ensures typed <= typed + (Line(line, last) + rest) && typed + line <= typed + (Line(line, last) + rest)
  {
  }

  predicate Plain(k: Key) { k.Enter? || (k.Literal? && k.text != "" && '\n' !in k.text) }

  class Terminal {
    var sent: seq<Key>
    var lastOutput: string
    var calls: nat
    const faults: nat -> bool // which tmux calls fail

    constructor (lastOutput: string, faults: nat -> bool)
      ensures sent == [] && this.lastOutput == lastOutput && this.faults == faults && calls == 0
    {
      this.lastOutput, this.faults, sent, calls := lastOutput, faults, [], 0;
    }

    method Send(k: Key) returns (ok: bool)
      modifies this`sent, this`calls
      ensures calls == old(calls) + 1 && ok == !faults(old(calls))
      ensures sent == if ok then old(sent) + [k] else old(sent)
    {
      ok := !faults(calls);
      calls := calls + 1;
      if ok { sent := sent + [k]; }
    }

    // One turn of the loop: a line, if it has any text, and the break after it, if there is one.
    method SendLine(line: string, last: bool) returns (ok: bool)
      requires '\n' !in line
      modifies this`sent, this`calls
      ensures old(sent) <= sent && old(calls) <= calls
      ensures forall i :: |old(sent)| <= i < |sent| ==> Plain(sent[i])
      ensures Typed(sent) == Typed(old(sent)) + (if ok then Line(line, last)
                                                 else if |sent| > |old(sent)| then line else "")
      ensures (forall k :: old(calls) <= k < calls ==> !faults(k)) ==> ok
    {
      hide Typed;
      ok := true;
      if line != "" {
        TypedAppend(sent, Literal(line));
        ok := Send(Literal(line));
        if !ok { return; }
      }
      if !last {
        TypedAppend(sent, Enter);
        ok := Send(Enter);
      }
    }

    /** The keys sent type exactly the given text, or, if a call fails, a beginning of it. */
    method SendLiteralKeystrokes(keystrokes: string) returns (ok: bool)
      modifies this`sent, this`calls
      ensures old(sent) <= sent && forall i :: |old(sent)| <= i < |sent| ==> Plain(sent[i])
      ensures Typed(sent) <= Typed(old(sent)) + keystrokes
      ensures ok ==> Typed(sent) == Typed(old(sent)) + keystrokes
      ensures (forall k :: old(calls) <= k < calls ==> !faults(k)) ==> ok
    {
      assert Unlines([]) == "";
      hide Typed, Unlines, Lines, Line, Plain;
      var parts := Lines(keystrokes);
      UnlinesOfLines(keystrokes);
      assert parts[0..] == parts;
      ghost var before := Typed(sent);
      var index := 0;
      while index < |parts|
        invariant 0 <= index <= |parts| && old(sent) <= sent && old(calls) <= calls
        invariant forall i :: |old(sent)| <= i < |sent| ==> Plain(sent[i])
        invariant Typed(sent) + Unlines(parts[index..]) == before + keystrokes
      {
        UnlinesFrom(parts, index);
        ghost var typed := Typed(sent);
        ok := SendLine(parts[index], index == |parts| - 1);
        Continues(typed, parts[index], index == |parts| - 1, Unlines(parts[index + 1..]));
        if !ok { return; }
        index := index + 1;
      }
      assert parts[index..] == [];
      ok := true;
    }

    /** Two texts are sent as the named keys they spell, so they alone are never typed. */
    method SendKeys(keystrokes: string) returns (ok: bool)
      modifies this`sent, this`calls
      ensures ok ==> (Typed(sent) == Typed(old(sent)) + keystrokes <==> keystrokes != "C-c" && keystrokes != "C-d")
      ensures ok && (keystrokes == "C-c" || keystrokes == "C-d") ==> sent == old(sent) + [Control(keystrokes)]
      ensures (forall k :: old(calls) <= k < calls ==> !faults(k)) ==> ok
    {
      hide Typed;
      if keystrokes == "C-c" || keystrokes == "C-d" {
        TypedAppend(sent, Control(keystrokes));
        ok := Send(Control(keystrokes));
        assert |Typed(old(sent)) + keystrokes| == |Typed(old(sent))| + 3;
      } else {
        ok := SendLiteralKeystrokes(keystrokes);
      }
    }

    /** What the screen gained since the last call if it only grew, the whole screen otherwise. */
    method GetIncrementalOutput(current: string) returns (output: string)
      modifies this`lastOutput
      ensures lastOutput == current && output == Increment(old(lastOutput), current)
      ensures old(lastOutput) <= current ==> old(lastOutput) + output == current
      ensures !(old(lastOutput) <= current) ==> output == current
    {
      output := if lastOutput <= current then current[|lastOutput|..] else current;
      lastOutput := current;
    }
  }

  function Increment(last: string, current: string): string
  {
    if last <= current then current[|last|..] else current
  }

  lemma OneIncrement(last: string, current: string, rest: string)
    ensures last <= current ==> last + (Increment(last, current) + rest) == current + rest
    ensures !(last <= current) ==> |last + (Increment(last, current) + rest)| > |current + rest|
  {
    if last <= current {
      assert last + (current[|last|..] + rest) == current + rest;
    }
  }

  // The outputs of one call after another, joined.
  function Increments(last: string, captures: seq<string>): string
    decreases captures
  {
    if captures == [] then "" else Increment(last, captures[0]) + Increments(captures[0], captures[1..])
  }

  predicate Grows(last: string, captures: seq<string>)
    decreases captures
  {
    captures == [] || (last <= captures[0] && Grows(captures[0], captures[1..]))
  }

  function Latest(last: string, captures: seq<string>): string
  {
    if captures == [] then last else captures[|captures| - 1]
  }

  /**
   Joined to the first screen, the increments give the last one, nothing missing and nothing repeated,
   exactly when the screen only grew from capture to capture; otherwise some text is reported twice.
   */
  lemma {:induction false} IncrementsContinueIff(last: string, captures: seq<string>)
    ensures last + Increments(last, captures) == Latest(last, captures) <==> Grows(last, captures)
    ensures !Grows(last, captures) ==> |last + Increments(last, captures)| > |Latest(last, captures)|
    decreases captures
  {
    if captures != [] {
      var current, rest := captures[0], Increments(captures[0], captures[1..]);
      IncrementsContinueIff(current, captures[1..]);
      assert Latest(last, captures) == Latest(current, captures[1..]);
      assert Increments(last, captures) == Increment(last, current) + rest;
      assert Grows(last, captures) == (last <= current && Grows(current, captures[1..]));
      hide *;
      OneIncrement(last, current, rest);
    }
  }
}
