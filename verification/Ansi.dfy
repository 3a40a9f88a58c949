/**
 Truncation of text with terminal escape sequences (truncateAnsi, truncateEllipsis, truncateVisual,
 stripAnsi in src/cc.mjs). Text is a sequence of UTF-16 code units, as in JavaScript strings.
 */
module Ansi {

  type Text = seq<nat>

  const ESC: nat := 0x1B
  const BRACKET: nat := 0x5B
  const RESET: Text := [ESC, BRACKET, 0x30, 0x6D]
  const DOTS: Text := [0x2E, 0x2E, 0x2E]
  const TILDE: Text := [0x7E]

  predicate IsParameter(u: nat) { 0x30 <= u <= 0x39 || u == 0x3B || u == 0x3F }

  predicate IsIntermediate(u: nat) { 0x20 <= u <= 0x2F }

  predicate IsFinal(u: nat) { 0x40 <= u <= 0x7E }

  function Parameters(s: Text): (n: nat)
    ensures n <= |s|
    decreases |s|
  {
    if s != [] && IsParameter(s[0]) then 1 + Parameters(s[1..]) else 0
  }

  function Intermediates(s: Text): (n: nat)
    ensures n <= |s|
    decreases |s|
  {
    if s != [] && IsIntermediate(s[0]) then 1 + Intermediates(s[1..]) else 0
  }

  // What follows the introducer, up to and including the final character; 0 without one. The three
  // character classes are disjoint, so the greedy expression has only this one way to match.
  function Tail(s: Text): (n: nat)
    ensures n <= |s|
  {
    var k := Parameters(s) + Intermediates(s[Parameters(s)..]);
    if k < |s| && IsFinal(s[k]) then k + 1 else 0
  }

  // Length of the escape sequence at the start of `s`, or 0.
  function MatchLength(s: Text): (n: nat)
    ensures n <= |s|
  {
    if |s| >= 2 && s[0] == ESC && s[1] == BRACKET && Tail(s[2..]) > 0 then 2 + Tail(s[2..]) else 0
  }

  function Strip(s: Text): Text
    decreases |s|
  {
    if s == [] then []
    else if MatchLength(s) > 0 then Strip(s[MatchLength(s)..])
    else [s[0]] + Strip(s[1..])
  }

  // Where the scan stops once `n` visible units have been passed.
  function CutIndex(s: Text, n: nat): (k: nat)
    ensures k <= |s|
    decreases |s|
  {
    if s == [] || n == 0 then 0
    else if MatchLength(s) > 0 then MatchLength(s) + CutIndex(s[MatchLength(s)..], n)
    else 1 + CutIndex(s[1..], n - 1)
  }

  function Truncated(value: Text, width: int, ellipsis: Text): Text
  {
    if width <= 0 then []
    else if |Strip(ellipsis)| >= width then
      RESET + ellipsis[..if width <= |ellipsis| then width else |ellipsis|] + RESET
    else if |Strip(value)| <= width then value
    else value[..CutIndex(value, width - |Strip(ellipsis)|)] + RESET + ellipsis + RESET
  }

  // One turn of the scan, in terms of indices into the whole value.
  lemma CutStep(value: Text, index: nat, n: nat)
    requires index <= |value|
    ensures n == 0 || index == |value| ==> CutIndex(value[index..], n) == 0
    ensures index < |value| && n > 0 ==>
              var m := MatchLength(value[index..]);
              CutIndex(value[index..], n) == if m > 0 then m + CutIndex(value[index + m..], n)
                                             else 1 + CutIndex(value[index + 1..], n - 1)
  {
    hide MatchLength;
    if index < |value| {
      var m := MatchLength(value[index..]);
      assert value[index..][m..] == value[index + m..] && value[index..][1..] == value[index + 1..];
    }
  }

  lemma TruncatedIs(value: Text, width: int, ellipsis: Text)
    ensures var r := Truncated(value, width, ellipsis);
            && (width <= 0 ==> r == [])
            && (0 < width <= |Strip(ellipsis)| ==>
                  width <= |ellipsis| && r == [0x1B, 0x5B, 0x30, 0x6D] + ellipsis[..width] + [0x1B, 0x5B, 0x30, 0x6D])
            && (|Strip(ellipsis)| < width && |Strip(value)| <= width ==> r == value)
            && (|Strip(ellipsis)| < width < |Strip(value)| ==>
                  exists k: nat :: CutAt(value, k, width - |Strip(ellipsis)|)
                    && r == value[..k] + [0x1B, 0x5B, 0x30, 0x6D] + ellipsis + [0x1B, 0x5B, 0x30, 0x6D])
  {
    hide MatchLength, Strip, CutIndex, CutAt;
    StripShortens(ellipsis);
    if |Strip(ellipsis)| < width < |Strip(value)| {
      var k := CutIndex(value, width - |Strip(ellipsis)|);
      CutIsExact(value, width - |Strip(ellipsis)|);
      assert Truncated(value, width, ellipsis) == value[..k] + [0x1B, 0x5B, 0x30, 0x6D] + ellipsis + [0x1B, 0x5B, 0x30, 0x6D];
    }
  }

  /**
   A text that fits is returned as it is. One that does not is cut after so many visible units that the ellipsis still
   fits, keeping the escape sequences before the cut, and colours are reset before and after the ellipsis. An ellipsis
   that is too long is itself cut.
   */
  method TruncateAnsi(value: Text, width: int, ellipsis: Text) returns (r: Text)
    ensures width <= 0 ==> r == []
    ensures 0 < width <= |Strip(ellipsis)| ==>
              width <= |ellipsis| && r == [0x1B, 0x5B, 0x30, 0x6D] + ellipsis[..width] + [0x1B, 0x5B, 0x30, 0x6D]
    ensures |Strip(ellipsis)| < width && |Strip(value)| <= width ==> r == value
    ensures |Strip(ellipsis)| < width < |Strip(value)| ==>
              exists k: nat :: CutAt(value, k, width - |Strip(ellipsis)|)
                && r == value[..k] + [0x1B, 0x5B, 0x30, 0x6D] + ellipsis + [0x1B, 0x5B, 0x30, 0x6D]
    ensures r == Truncated(value, width, ellipsis)
  {
    hide MatchLength, Strip, CutIndex, CutAt;
    TruncatedIs(value, width, ellipsis);
    if width <= 0 { return []; }
    var ellipsisWidth := |Strip(ellipsis)|;
    if ellipsisWidth >= width {
      return RESET + ellipsis[..if width <= |ellipsis| then width else |ellipsis|] + RESET;
    }
    var textWidth := |Strip(value)|;
    if textWidth <= width { return value; }
    var output := Head(value, width - ellipsisWidth);
    return output + RESET + ellipsis + RESET;
  }

  // The scan: units are copied until `contentWidth` visible ones have been passed.
  method Head(value: Text, contentWidth: nat) returns (output: Text)
    ensures output == value[..CutIndex(value, contentWidth)]
  {
    hide MatchLength, CutIndex;
    var visible, index := 0, 0;
    output := [];
    assert value[0..] == value;
    while index < |value| && visible < contentWidth
      invariant index <= |value| && visible <= contentWidth && output == value[..index]
      invariant index + CutIndex(value[index..], contentWidth - visible) == CutIndex(value, contentWidth)
      decreases |value| - index
    {
      CutStep(value, index, contentWidth - visible);
      var ansi := MatchLength(value[index..]);
      if ansi > 0 {
        output := output + value[index..index + ansi];
        index := index + ansi;
        continue;
      }
      output := output + [value[index]];
      index := index + 1;
      visible := visible + 1;
    }
    CutStep(value, index, contentWidth - visible);
  }

  function TruncatedVisual(value: Text, width: int): Text
  {
    if |Strip(value)| <= width then value
    else Truncated(value, if width - 1 > 1 then width - 1 else 1, DOTS) + TILDE
  }

  // ---------- cuts and escape sequences ----------

  lemma {:induction false} ParametersAppend(s: Text, t: Text)
    requires t != [] && t[0] == ESC
    ensures Parameters(s + t) == Parameters(s)
    decreases |s|
  {
    if s == [] {
      assert s + t == t;
    } else {
      assert (s + t)[1..] == s[1..] + t;
      ParametersAppend(s[1..], t);
    }
  }

  lemma {:induction false} IntermediatesAppend(s: Text, t: Text)
    requires t != [] && t[0] == ESC
    ensures Intermediates(s + t) == Intermediates(s)
    decreases |s|
  {
    if s == [] {
      assert s + t == t;
    } else {
      assert (s + t)[1..] == s[1..] + t;
      IntermediatesAppend(s[1..], t);
    }
  }

  // An escape character is never part of a sequence that began before it.
  lemma MatchAppend(s: Text, t: Text)
    requires s != [] && t != [] && t[0] == ESC
    ensures MatchLength(s + t) == MatchLength(s)
  {
    if |s| >= 2 {
      var u := s[2..];
      assert (s + t)[2..] == u + t;
      ParametersAppend(u, t);
      var v := u[Parameters(u)..];
      assert (u + t)[Parameters(u)..] == v + t;
      IntermediatesAppend(v, t);
    }
  }

  lemma {:induction false} ParametersPrefix(s: Text, k: nat, t: Text)
    requires Parameters(s) < k <= |s|
    ensures Parameters(s[..k] + t) == Parameters(s)
    decreases |s|
  {
    if IsParameter(s[0]) {
      assert (s[..k] + t)[1..] == s[1..][..k - 1] + t;
      ParametersPrefix(s[1..], k - 1, t);
    }
  }

  lemma {:induction false} IntermediatesPrefix(s: Text, k: nat, t: Text)
    requires Intermediates(s) < k <= |s|
    ensures Intermediates(s[..k] + t) == Intermediates(s)
    decreases |s|
  {
    if IsIntermediate(s[0]) {
      assert (s[..k] + t)[1..] == s[1..][..k - 1] + t;
      IntermediatesPrefix(s[1..], k - 1, t);
    }
  }

  // A sequence is recognised by its own characters alone.
  lemma MatchPrefix(s: Text, k: nat, t: Text)
    requires 0 < MatchLength(s) <= k <= |s|
    ensures MatchLength(s[..k] + t) == MatchLength(s)
  {
    hide Parameters, Intermediates, IsFinal;
    var u := s[2..];
    var p := Parameters(u);
    var q := p + Intermediates(u[p..]);
    var v := s[..k] + t;
    assert v[2..] == u[..k - 2] + t;
    ParametersPrefix(u, k - 2, t);
    assert (u[..k - 2] + t)[p..] == u[p..][..k - 2 - p] + t;
    IntermediatesPrefix(u[p..], k - 2 - p, t);
    assert v[2..][q] == u[q];
  }

  // A cut in front of an escape character creates no sequence.
  lemma NoMatchPrefix(s: Text, k: nat, t: Text)
    requires MatchLength(s) == 0 && 0 < k <= |s| && t != [] && t[0] == ESC
    ensures MatchLength(s[..k] + t) == 0
  {
    MatchAppend(s[..k], t);
    assert s[..k][..k] + s[k..] == s;
    if MatchLength(s[..k]) > 0 { MatchPrefix(s[..k], k, s[k..]); }
  }

  lemma {:induction false} StripAppend(s: Text, t: Text)
    requires t != [] && t[0] == ESC
    ensures Strip(s + t) == Strip(s) + Strip(t)
    decreases |s|
  {
    StripNothing();
    hide *;
    if s == [] {
      assert s + t == t && [] + Strip(t) == Strip(t);
    } else {
      MatchAppend(s, t);
      StripStep(s);
      StripStep(s + t);
      var n := if MatchLength(s) > 0 then MatchLength(s) else 1;
      var shown := if MatchLength(s) > 0 then [] else [s[0]];
      assert (s + t)[n..] == s[n..] + t;
      StripAppend(s[n..], t);
      assert shown + (Strip(s[n..]) + Strip(t)) == (shown + Strip(s[n..])) + Strip(t);
    }
  }

  // Either an escape sequence goes, or one unit stays.
  lemma StripStep(s: Text)
    requires s != []
    ensures var m := MatchLength(s); Strip(s) == if m > 0 then [] + Strip(s[m..]) else [s[0]] + Strip(s[1..])
  {
    hide MatchLength;
  }

  lemma {:induction false} CutStrips(s: Text, n: nat, t: Text)
    requires n <= |Strip(s)| && t != [] && t[0] == ESC
    ensures Strip(s[..CutIndex(s, n)] + t) == Strip(s)[..n] + Strip(t)
    decreases |s|
  {
    hide MatchLength;
    var k := CutIndex(s, n);
    if n == 0 {
      assert s[..k] + t == t && Strip(s)[..n] + Strip(t) == Strip(t);
    } else {
      var m := if MatchLength(s) > 0 then MatchLength(s) else 1;
      var left := if MatchLength(s) > 0 then n else n - 1;
      CutStrips(s[m..], left, t);
      assert (s[..k] + t)[m..] == s[m..][..k - m] + t;
      if MatchLength(s) > 0 {
        MatchPrefix(s, k, t);
      } else {
        NoMatchPrefix(s, k, t);
        assert (s[..k] + t)[0] == s[0];
      }
    }
  }

  // `s` is cut right behind its `n`th visible unit: before the cut just `n` of them show, and the last unit is visible.
  predicate CutAt(s: Text, k: nat, n: nat)
  {
    && 0 < k <= |s| && 0 < n <= |Strip(s)|
    && Strip(s[..k] + RESET) == Strip(s)[..n] && Strip(s[k..]) == Strip(s)[n..]
    && Strip(s[k - 1..]) == Strip(s)[n - 1..] && MatchLength(s[k - 1..]) == 0
  }

  lemma CutIsExact(s: Text, n: nat)
    requires 0 < n <= |Strip(s)|
    ensures CutAt(s, CutIndex(s, n), n)
  {
    hide Strip, CutIndex, MatchLength;
    CutStrips(s, n, RESET);
    StripReset([]);
    StripNothing();
    assert RESET + [] == RESET && Strip(s)[..n] + [] == Strip(s)[..n];
    CutEnds(s, n);
  }

  lemma CutOnce(s: Text, n: nat)
    ensures CutIndex(s, 0) == 0
    ensures s != [] && n > 0 ==>
              var m := MatchLength(s);
              CutIndex(s, n) == if m > 0 then m + CutIndex(s[m..], n) else 1 + CutIndex(s[1..], n - 1)
  {
    hide MatchLength;
  }

  lemma {:induction false} CutEnds(s: Text, n: nat)
    requires 0 < n <= |Strip(s)|
    ensures var k := CutIndex(s, n);
            && 0 < k <= |s| && Strip(s[k..]) == Strip(s)[n..]
            && Strip(s[k - 1..]) == Strip(s)[n - 1..] && MatchLength(s[k - 1..]) == 0
    decreases |s|
  {
    hide MatchLength, Strip, CutIndex;
    var m := MatchLength(s);
    StripNothing();
    StripStep(s);
    CutOnce(s, n);
    if m > 0 {
      CutEnds(s[m..], n);
      var k := CutIndex(s[m..], n);
      assert s[m..][k..] == s[m + k..] && s[m..][k - 1..] == s[m + k - 1..];
    } else if n == 1 {
      CutOnce(s[1..], 0);
    } else {
      CutEnds(s[1..], n - 1);
      var k := CutIndex(s[1..], n - 1);
      assert s[1..][k..] == s[1 + k..] && s[1..][k - 1..] == s[k..];
    }
  }

  // ---------- what an escape sequence is ----------

  // ESC [, then digits, `;` and `?`, then units from space to `/`, then one unit from `@` to `~`.
  predicate EscapeParts(s: Text, p: Text, i: Text, f: nat)
  {
    && s == [0x1B, 0x5B] + p + i + [f] && 0x40 <= f <= 0x7E
    && (forall k :: 0 <= k < |p| ==> 0x30 <= p[k] <= 0x39 || p[k] == 0x3B || p[k] == 0x3F)
    && (forall k :: 0 <= k < |i| ==> 0x20 <= i[k] <= 0x2F)
  }

  ghost predicate IsEscape(s: Text) { exists p, i, f :: EscapeParts(s, p, i, f) }

  lemma {:induction false} ParametersAre(s: Text)
    ensures forall k :: 0 <= k < Parameters(s) ==> IsParameter(s[k])
    ensures Parameters(s) < |s| ==> !IsParameter(s[Parameters(s)])
    decreases |s|
  {
    if s != [] && IsParameter(s[0]) { ParametersAre(s[1..]); }
  }

  lemma {:induction false} IntermediatesAre(s: Text)
    ensures forall k :: 0 <= k < Intermediates(s) ==> IsIntermediate(s[k])
    ensures Intermediates(s) < |s| ==> !IsIntermediate(s[Intermediates(s)])
    decreases |s|
  {
    if s != [] && IsIntermediate(s[0]) { IntermediatesAre(s[1..]); }
  }

  lemma {:induction false} ParametersThen(p: Text, x: Text)
    requires (forall k :: 0 <= k < |p| ==> IsParameter(p[k])) && x != [] && !IsParameter(x[0])
    ensures Parameters(p + x) == |p|
    decreases |p|
  {
    if p == [] {
      assert p + x == x;
    } else {
      assert (p + x)[1..] == p[1..] + x;
      ParametersThen(p[1..], x);
    }
  }

  lemma {:induction false} IntermediatesThen(i: Text, x: Text)
    requires (forall k :: 0 <= k < |i| ==> IsIntermediate(i[k])) && x != [] && !IsIntermediate(x[0])
    ensures Intermediates(i + x) == |i|
    decreases |i|
  {
    if i == [] {
      assert i + x == x;
    } else {
      assert (i + x)[1..] == i[1..] + x;
      IntermediatesThen(i[1..], x);
    }
  }

  /** The expression matches `n` units at the start of a text exactly when those are an escape sequence. */
  lemma MatchIff(s: Text, n: nat)
    requires n > 0
    ensures MatchLength(s) == n <==> n <= |s| && IsEscape(s[..n])
  {
    hide MatchLength;
    if MatchLength(s) == n { MatchIsEscape(s); }
    if n <= |s| {
      if p, i, f :| EscapeParts(s[..n], p, i, f) {
        EscapeMatches(p, i, f, s[n..]);
        assert s == s[..n] + s[n..];
      }
    }
  }

  lemma MatchIsEscape(s: Text)
    requires MatchLength(s) > 0
    ensures IsEscape(s[..MatchLength(s)])
  {
    hide Parameters, Intermediates;
    var u := s[2..];
    var a := Parameters(u);
    var b := Intermediates(u[a..]);
    var p, i, f := u[..a], u[a..][..b], u[a + b];
    ParametersAre(u);
    IntermediatesAre(u[a..]);
    assert u[..a + b + 1] == p + i + [f];
    assert s[..MatchLength(s)] == [0x1B, 0x5B] + u[..a + b + 1] == [0x1B, 0x5B] + p + i + [f];
    assert EscapeParts(s[..MatchLength(s)], p, i, f);
  }

  lemma EscapeMatches(p: Text, i: Text, f: nat, rest: Text)
    requires EscapeParts([0x1B, 0x5B] + p + i + [f], p, i, f)
    ensures MatchLength([0x1B, 0x5B] + p + i + [f] + rest) == |p| + |i| + 3
  {
    hide Parameters, Intermediates;
    var s := [0x1B, 0x5B] + p + i + [f] + rest;
    var v := [f] + rest;
    var u := i + v;
    assert s[2..] == p + u;
    assert u[0] == (if i == [] then f else i[0]);
    ParametersThen(p, u);
    assert (p + u)[|p|..] == u;
    IntermediatesThen(i, v);
    assert s[2..][|p| + |i|] == f;
  }

  /** Stripping removes the escape sequence a text begins with, or keeps its first unit when there is none. */
  lemma StripIs(s: Text, n: nat)
    requires s != []
    ensures 0 < n <= |s| && IsEscape(s[..n]) ==> Strip(s) == Strip(s[n..])
    ensures (forall k: nat :: 0 < k <= |s| ==> !IsEscape(s[..k])) ==> Strip(s) == [s[0]] + Strip(s[1..])
  {
    hide MatchLength, IsEscape;
    if n > 0 { MatchIff(s, n); }
    if MatchLength(s) > 0 { MatchIff(s, MatchLength(s)); }
  }

  lemma StripReset(t: Text)
    ensures Strip(RESET + t) == Strip(t)
  {
    assert RESET[2..] == [0x30, 0x6D] && [0x30, 0x6D][1..] == [0x6D];
    assert MatchLength(RESET) == 4;
    MatchPrefix(RESET, 4, t);
    assert RESET[..4] == RESET && (RESET + t)[4..] == t;
  }

  lemma StripBetweenResets(s: Text, t: Text)
    ensures Strip(s + RESET + t + RESET) == Strip(s + RESET) + Strip(t)
    ensures Strip(RESET + t + RESET) == Strip(t) && Strip(s + RESET) == Strip(s)
  {
    hide Strip;
    StripReset([]);
    assert RESET + [] == RESET;
    StripNothing();
    StripAppend(t, RESET);
    assert Strip(t) + [] == Strip(t) && Strip(s) + [] == Strip(s);
    StripReset(t + RESET);
    assert RESET + t + RESET == RESET + (t + RESET);
    StripAppend(s, RESET + (t + RESET));
    StripAppend(s, RESET);
    assert s + RESET + t + RESET == s + (RESET + (t + RESET));
  }

  lemma StripNothing()
    ensures Strip([]) == []
  {
  }

  lemma {:induction false} StripShortens(s: Text)
    ensures |Strip(s)| <= |s|
    decreases |s|
  {
    if s != [] { StripShortens(s[if MatchLength(s) > 0 then MatchLength(s) else 1..]); }
  }

  /**
   Truncation is exact. If the ellipsis fits and the text does not, the visible result is the first
   `width` minus ellipsis units of the visible text and then the visible ellipsis: the cut neither
   creates nor destroys an escape sequence. In every case the visible length stays within the width.
   */
  lemma TruncationIsExact(value: Text, width: int, ellipsis: Text)
    ensures var e := Strip(ellipsis);
            |e| < width < |Strip(value)| ==>
              Strip(Truncated(value, width, ellipsis)) == Strip(value)[..width - |e|] + e
    ensures width >= 0 ==> |Strip(Truncated(value, width, ellipsis))| <= width
  {
    hide Strip, CutIndex;
    StripNothing();
    var e := Strip(ellipsis);
    if |e| < width < |Strip(value)| {
      var head := value[..CutIndex(value, width - |e|)];
      StripBetweenResets(head, ellipsis);
      CutStrips(value, width - |e|, RESET);
      StripReset([]);
      assert RESET + [] == RESET;
    } else if 0 < width <= |e| {
      var t := ellipsis[..if width <= |ellipsis| then width else |ellipsis|];
      StripBetweenResets([], t);
      StripShortens(t);
      assert RESET + t + RESET == [] + RESET + t + RESET;
    }
  }

  lemma StripTilde(s: Text)
    ensures Strip(s + RESET + TILDE) == Strip(s) + TILDE
  {
    assert s + RESET + TILDE == s + (RESET + TILDE);
    StripAppend(s, RESET + TILDE);
    StripReset(TILDE);
    assert TILDE[1..] == [];
  }

  /**
   What the visual variant shows of a text that is too long: from width 5 on, the text up to the last four units, three
   dots and `~`; below that, as many dots as there is room for, but at least one, and `~`.
   */
  lemma VisualShows(value: Text, width: int)
    requires |Strip(value)| > width
    ensures Strip(TruncatedVisual(value, width)) ==
            if width >= 5 then Strip(value)[..width - 4] + [0x2E, 0x2E, 0x2E] + [0x7E]
            else DOTS[..if width > 1 then width - 1 else 1] + [0x7E]
  {
    var w := if width - 1 > 1 then width - 1 else 1;
    var cut := Truncated(value, w, DOTS);
    hide Strip, CutIndex;
    StripDots(3);
    StripNothing();
    assert DOTS[..3] == DOTS;
    if 3 >= w {
      StripDots(w);
      assert cut + TILDE == (RESET + DOTS[..w]) + RESET + TILDE;
      StripTilde(RESET + DOTS[..w]);
      StripReset(DOTS[..w]);
    } else {
      var head := value[..CutIndex(value, w - 3)] + RESET + DOTS;
      assert cut + TILDE == head + RESET + TILDE;
      StripTilde(head);
      TruncationIsExact(value, w, DOTS);
      StripAppend(head, RESET);
      StripReset([]);
      assert RESET + [] == RESET && Strip(head) + [] == Strip(head);
    }
  }

  /**
   A text that fits is left alone. A text that is cut shows exactly `width` units, but never fewer than two, so the
   result fits if and only if the text did or the width is at least 2.
   */
  lemma VisualWidth(value: Text, width: int)
    ensures |Strip(value)| <= width ==> TruncatedVisual(value, width) == value
    ensures |Strip(value)| > width ==> |Strip(TruncatedVisual(value, width))| == if width >= 2 then width else 2
    ensures |Strip(TruncatedVisual(value, width))| <= width <==> |Strip(value)| <= width || width >= 2
  {
    hide Strip, Truncated;
    if |Strip(value)| > width { VisualShows(value, width); }
  }

  lemma StripDots(n: nat)
    requires n <= 3
    ensures Strip(DOTS[..n]) == DOTS[..n]
  {
    if n > 0 {
      StripDots(n - 1);
      assert DOTS[..n][1..] == DOTS[..n - 1];
    }
  }
}
