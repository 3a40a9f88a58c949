/**
 The launcher's quoting of embedded paths (shellQuote and the lines around it in
 scripts/install-channel.mjs) against the token recognition and quote removal of the POSIX Shell Command
 Language, sections 2.2 and 2.3. Parameter expansions inside double-quotes stay symbolic.
 */
module ShellQuote {
  import opened Common

  function ReplaceQuotes(s: string): string
    decreases |s|
  {
    if s == [] then []
    else (if s[0] == '\'' then "'\"'\"'" else [s[0]]) + ReplaceQuotes(s[1..])
  }

  function Quote(s: string): string { "'" + ReplaceQuotes(s) + "'" }

  // ---------- the shell ----------

  // A word of a command: characters, and the results of expansions that undergo no field splitting.
  datatype Atom = Char(c: char) | Expansion(parameter: string)

  type Word = seq<Atom>

  function Text(s: string): Word { seq(|s|, i requires 0 <= i < |s| => Char(s[i])) }

  datatype Mode = Unquoted | Single | Double

  datatype Parsed =
    | Command(words: seq<Word>, rest: string) // the words of one line and what follows the newline
    | Active(c: char)                         // an operator, other expansion, pattern or comment would act here
    | Unterminated
    | Nul                                     // NUL cannot occur in a script

  // Characters that make the shell do something when they stand unquoted.
  const ACTIVE: set<char> := {'|', '&', ';', '<', '>', '(', ')', '$', '`', '*', '?', '[', '#', '~'}

  // Section 2.2.3: after these a backslash inside double-quotes is removed.
  const ESCAPED_IN_DOUBLE: set<char> := {'$', '`', '"', '\\'}

  function Extend(word: Option<Word>, t: Word): Option<Word>
  {
    Some((if word.Some? then word.value else []) + t)
  }

  function Close(words: seq<Word>, word: Option<Word>): seq<Word>
  {
    if word.Some? then words + [word.value] else words
  }

  predicate NameChar(c: char) { 'a' <= c <= 'z' || 'A' <= c <= 'Z' || '0' <= c <= '9' || c == '_' }

  function NameLength(s: string): (n: nat)
    ensures n <= |s|
    decreases |s|
  {
    if s != [] && NameChar(s[0]) then 1 + NameLength(s[1..]) else 0
  }

  // Characters between the braces of an expansion that is itself free of quoting and nesting.
  predicate BodyChar(c: char) { c !in {'\0', '\n', '\'', '"', '\\', '$', '`', '{', '}'} }

  function BodyLength(s: string): (n: nat)
    ensures n <= |s|
    decreases |s|
  {
    if s != [] && BodyChar(s[0]) then 1 + BodyLength(s[1..]) else 0
  }

  // What follows a `$` inside double-quotes: how many characters belong to the expansion, and its parameter.
  function Dollar(s: string): (r: Option<(nat, string)>)
    ensures r.Some? ==> 0 < r.value.0 <= |s|
  {
    if s == [] then None
    else if s[0] == '@' then Some((1, "@"))
    else if s[0] == '{' then
      var n := BodyLength(s[1..]);
      if n > 0 && 1 + n < |s| && s[1 + n] == '}' then Some((n + 2, s[1..1 + n])) else None
    else
      var n := NameLength(s);
      if n > 0 then Some((n, s[..n])) else None
  }

  // Reads one command; `word` is the token under construction, `None` between tokens.
  function Parse(s: string, mode: Mode, words: seq<Word>, word: Option<Word>): Parsed
    decreases |s|
  {
    if s == [] then (if mode.Unquoted? then Command(Close(words, word), []) else Unterminated)
    else if s[0] == '\0' then Nul
    else match mode
         case Unquoted =>
           if s[0] == '\n' then Command(Close(words, word), s[1..])
           else if s[0] == ' ' || s[0] == '\t' then Parse(s[1..], Unquoted, Close(words, word), None)
           else if s[0] == '\'' then Parse(s[1..], Single, words, Extend(word, []))
           else if s[0] == '"' then Parse(s[1..], Double, words, Extend(word, []))
           else if s[0] == '\\' then
             if |s| == 1 then Unterminated
             else if s[1] == '\0' then Nul
             else Parse(s[2..], Unquoted, words, if s[1] == '\n' then word else Extend(word, [Char(s[1])]))
           else if s[0] in ACTIVE then Active(s[0])
           else Parse(s[1..], Unquoted, words, Extend(word, [Char(s[0])]))
         case Single =>
           if s[0] == '\'' then Parse(s[1..], Unquoted, words, word)
           else Parse(s[1..], Single, words, Extend(word, [Char(s[0])]))
         case Double =>
           if s[0] == '"' then Parse(s[1..], Unquoted, words, word)
           else if s[0] == '$' then
             match Dollar(s[1..])
             case None => Active('$')
             case Some(d) => Parse(s[1 + d.0..], Double, words, Extend(word, [Expansion(d.1)]))
           else if s[0] == '`' then Active('`')
           else if s[0] == '\\' && |s| > 1 && s[1] in ESCAPED_IN_DOUBLE then
             Parse(s[2..], Double, words, Extend(word, [Char(s[1])]))
           else if s[0] == '\\' && |s| > 1 && s[1] == '\n' then Parse(s[2..], Double, words, word)
           else Parse(s[1..], Double, words, Extend(word, [Char(s[0])]))
  }

  // ---------- quoting against parsing ----------

  // The escape for one quote: leave, double-quote it, enter again.
  lemma EscapedQuote(t: string, words: seq<Word>, word: Word)
    ensures Parse("'\"'\"'" + t, Single, words, Some(word)) == Parse(t, Single, words, Some(word + [Char('\'')]))
  {
    hide Dollar;
    var s := "'\"'\"'" + t;
    assert s[1..] == "\"'\"'" + t && s[1..][1..] == "'\"'" + t;
    assert s[1..][1..][1..] == "\"'" + t && s[1..][1..][1..][1..] == "'" + t;
    assert s[1..][1..][1..][1..][1..] == t;
    var w := word + [Char('\'')];
    assert word + [] == word && w + [] == w;
    assert Parse("'" + t, Unquoted, words, Some(w)) == Parse(t, Single, words, Some(w));
    assert Parse("\"'" + t, Double, words, Some(w)) == Parse("'" + t, Unquoted, words, Some(w));
    assert Parse("'\"'" + t, Double, words, Some(word)) == Parse("\"'" + t, Double, words, Some(w));
    assert Parse("\"'\"'" + t, Unquoted, words, Some(word)) == Parse("'\"'" + t, Double, words, Some(word));
  }

  lemma TextNext(s: string)
    requires s != []
    ensures Text(s) == [Char(s[0])] + Text(s[1..])
  {
  }

  // Characters inside single quotes and at their end.
  lemma SingleNext(c: char, rest: string, words: seq<Word>, word: Word)
    ensures Parse([c] + rest, Single, words, Some(word)) ==
            if c == '\0' then Nul
            else if c == '\'' then Parse(rest, Unquoted, words, Some(word))
            else Parse(rest, Single, words, Some(word + [Char(c)]))
  {
    assert ([c] + rest)[1..] == rest;
  }

  lemma {:induction false} QuotedBody(s: string, t: string, words: seq<Word>, word: Word)
    ensures Parse(ReplaceQuotes(s) + "'" + t, Single, words, Some(word)) ==
            if '\0' in s then Nul else Parse(t, Unquoted, words, Some(word + Text(s)))
    decreases |s|
  {
    hide Parse, Text;
    if s == [] {
      assert ReplaceQuotes(s) + "'" + t == ['\''] + t;
      EmptyText(word);
      SingleNext('\'', t, words, word);
    } else {
      var rest := ReplaceQuotes(s[1..]) + "'" + t;
      assert s == [s[0]] + s[1..];
      TextNext(s);
      var w := word + [Char(s[0])];
      assert w + Text(s[1..]) == word + Text(s);
      QuotedBody(s[1..], t, words, w);
      if s[0] == '\'' {
        assert ReplaceQuotes(s) + "'" + t == "'\"'\"'" + rest;
        EscapedQuote(rest, words, word);
      } else {
        assert ReplaceQuotes(s) + "'" + t == [s[0]] + rest;
        SingleNext(s[0], rest, words, word);
      }
    }
  }

  lemma EmptyText(word: Word)
    ensures word + Text("") == word && Text("") == []
  {
  }

  /**
   Wherever the shell is between quotes, a quoted string contributes exactly its own characters to the
   word under construction, nothing in it acts, and reading goes on unquoted right behind it, whatever
   came before and whatever follows. It fails exactly for strings that contain NUL.
   */
  lemma QuoteReadsBack(s: string, t: string, words: seq<Word>, word: Option<Word>)
    ensures Parse(Quote(s) + t, Unquoted, words, word) ==
            if '\0' in s then Nul else Parse(t, Unquoted, words, Extend(word, Text(s)))
  {
    var w := if word.Some? then word.value else [];
    var inner := ReplaceQuotes(s) + "'" + t;
    assert Quote(s) + t == "'" + inner && ("'" + inner)[1..] == inner;
    assert w + [] == w;
    assert Parse(Quote(s) + t, Unquoted, words, word) == Parse(inner, Single, words, Some(w));
    hide Parse;
    QuotedBody(s, t, words, w);
  }

  // ---------- lines made of plain, quoted and expanded parts ----------

  // `Bare` stands unquoted, `Quoted` went through shellQuote, the others are "$NAME", "$@" and "${...}".
  datatype Part = Bare(text: string) | Quoted(text: string) | Named(name: string) | Braced(body: string)

  // Characters that stand for themselves outside quotes.
  predicate Plain(s: string)
  {
    forall c :: c in s ==> c !in ACTIVE && c !in {'\0', '\n', ' ', '\t', '\'', '"', '\\'}
  }

  predicate PartFits(p: Part)
  {
    match p
    case Bare(t) => t != "" && Plain(t)
    case Quoted(_) => true
    case Named(n) => n == "@" || (n != "" && forall c :: c in n ==> NameChar(c))
    case Braced(b) => b != "" && forall c :: c in b ==> BodyChar(c)
  }

  function Written(p: Part): string
  {
    match p
    case Bare(t) => t
    case Quoted(t) => Quote(t)
    case Named(n) => "\"$" + n + "\""
    case Braced(b) => "\"${" + b + "}\""
  }

  function Meaning(p: Part): Word
  {
    match p
    case Bare(t) => Text(t)
    case Quoted(t) => Text(t)
    case Named(n) => [Expansion(n)]
    case Braced(b) => [Expansion(b)]
  }

  predicate NulFree(p: Part) { p.Quoted? ==> '\0' !in p.text }

  lemma {:induction false} PlainReadsBack(s: string, t: string, words: seq<Word>, word: Option<Word>)
    requires s != "" && Plain(s)
    ensures Parse(s + t, Unquoted, words, word) == Parse(t, Unquoted, words, Extend(word, Text(s)))
    decreases |s|
  {
    assert (s + t)[1..] == s[1..] + t && s[0] in s;
    var next := Extend(word, [Char(s[0])]);
    assert Parse(s + t, Unquoted, words, word) == Parse(s[1..] + t, Unquoted, words, next);
    hide Parse, Text;
    TextNext(s);
    if |s| == 1 {
      assert s[1..] + t == t && s[1..] == "";
      EmptyText([Char(s[0])]);
    } else {
      PlainReadsBack(s[1..], t, words, next);
      var w := if word.Some? then word.value else [];
      assert (w + [Char(s[0])]) + Text(s[1..]) == w + Text(s);
    }
  }

  lemma {:induction false} NameLengthIs(n: string, t: string)
    requires forall c :: c in n ==> NameChar(c)
    requires t != "" && !NameChar(t[0])
    ensures NameLength(n + t) == |n|
    decreases |n|
  {
    if n == "" {
      assert n + t == t;
    } else {
      assert (n + t)[1..] == n[1..] + t && n[0] in n;
      NameLengthIs(n[1..], t);
    }
  }

  lemma {:induction false} BodyLengthIs(b: string, t: string)
    requires forall c :: c in b ==> BodyChar(c)
    requires t != "" && !BodyChar(t[0])
    ensures BodyLength(b + t) == |b|
    decreases |b|
  {
    if b == "" {
      assert b + t == t;
    } else {
      assert (b + t)[1..] == b[1..] + t && b[0] in b;
      BodyLengthIs(b[1..], t);
    }
  }

  lemma DollarName(n: string, t: string)
    requires PartFits(Named(n))
    ensures Dollar(n + "\"" + t) == Some((|n|, n))
  {
    var s := n + "\"" + t;
    if n == "@" {
      assert s[0] == '@';
    } else {
      assert s == n + ("\"" + t) && s[0] == n[0] && n[0] in n;
      NameLengthIs(n, "\"" + t);
      assert s[..|n|] == n;
    }
  }

  lemma DollarBraced(b: string, t: string)
    requires PartFits(Braced(b))
    ensures Dollar("{" + b + "}\"" + t) == Some((|b| + 2, b))
  {
    var s := "{" + b + "}\"" + t;
    assert s[1..] == b + ("}\"" + t) && s[0] == '{';
    BodyLengthIs(b, "}\"" + t);
    assert s[1..1 + |b|] == b && s[1 + |b|] == '}';
  }

  lemma DoubleOpens(t: string, words: seq<Word>, word: Option<Word>)
    ensures Parse("\"" + t, Unquoted, words, word) == Parse(t, Double, words, Extend(word, []))
    ensures word.Some? ==> Parse("\"" + t, Double, words, word) == Parse(t, Unquoted, words, word)
  {
    assert ("\"" + t)[1..] == t;
  }

  lemma DollarStep(t: string, words: seq<Word>, word: Word)
    requires Dollar(t).Some?
    ensures Parse("$" + t, Double, words, Some(word))
            == Parse(t[Dollar(t).value.0..], Double, words, Some(word + [Expansion(Dollar(t).value.1)]))
  {
    hide Dollar;
    assert ("$" + t)[1..] == t && ("$" + t)[1 + Dollar(t).value.0..] == t[Dollar(t).value.0..];
  }

  // An expansion between double-quotes, as one character of a word would be read.
  lemma ExpansionReadsBack(inner: string, parameter: string, t: string, words: seq<Word>, word: Option<Word>)
    requires Dollar(inner + "\"" + t) == Some((|inner|, parameter))
    ensures Parse("\"$" + inner + "\"" + t, Unquoted, words, word)
            == Parse(t, Unquoted, words, Extend(word, [Expansion(parameter)]))
  {
    hide Dollar, Parse;
    var w := if word.Some? then word.value else [];
    var tail := inner + "\"" + t;
    assert "\"$" + inner + "\"" + t == "\"" + ("$" + tail);
    DoubleOpens("$" + tail, words, word);
    assert w + [] == w;
    DollarStep(tail, words, w);
    assert tail[|inner|..] == "\"" + t;
    DoubleOpens(t, words, Some(w + [Expansion(parameter)]));
  }

  // Any part is read as what it means, and reading goes on unquoted behind it.
  lemma PartReadsBack(p: Part, t: string, words: seq<Word>, word: Option<Word>)
    requires PartFits(p)
    ensures Parse(Written(p) + t, Unquoted, words, word) ==
            if NulFree(p) then Parse(t, Unquoted, words, Extend(word, Meaning(p))) else Nul
  {
    hide Parse, Text, Dollar, Quote;
    match p
    case Bare(s) => PlainReadsBack(s, t, words, word);
    case Quoted(s) => QuoteReadsBack(s, t, words, word);
    case Named(n) =>
      DollarName(n, t);
      ExpansionReadsBack(n, n, t, words, word);
    case Braced(b) =>
      DollarBraced(b, t);
      var inner := "{" + b + "}";
      assert inner + "\"" + t == "{" + b + "}\"" + t;
      ExpansionReadsBack(inner, b, t, words, word);
      assert Written(p) + t == "\"$" + inner + "\"" + t;
  }

  function WordText(parts: seq<Part>): string
    decreases |parts|
  {
    if parts == [] then "" else Written(parts[0]) + WordText(parts[1..])
  }

  function WordMeaning(parts: seq<Part>): Word
    decreases |parts|
  {
    if parts == [] then [] else Meaning(parts[0]) + WordMeaning(parts[1..])
  }

  predicate WordFits(parts: seq<Part>) { parts != [] && forall p :: p in parts ==> PartFits(p) }

  predicate WordNulFree(parts: seq<Part>) { forall p :: p in parts ==> NulFree(p) }

  lemma WordSplit(parts: seq<Part>)
    requires parts != []
    ensures WordText(parts) == Written(parts[0]) + WordText(parts[1..])
    ensures WordMeaning(parts) == Meaning(parts[0]) + WordMeaning(parts[1..])
    ensures WordNulFree(parts) <==> NulFree(parts[0]) && WordNulFree(parts[1..])
    ensures WordFits(parts) <==> PartFits(parts[0]) && (parts[1..] == [] || WordFits(parts[1..]))
    ensures WordText([]) == "" && WordMeaning([]) == [] && WordNulFree([])
  {
    hide Written, Meaning, PartFits, NulFree;
    assert parts[0] in parts && forall x :: x in parts <==> x == parts[0] || x in parts[1..];
  }

  lemma Regroup(a: string, b: string, c: string)
    ensures (a + b) + c == a + (b + c) && "" + c == c
  {
  }

  lemma ExtendTwice(word: Option<Word>, a: Word, b: Word)
    ensures Extend(Extend(word, a), b) == Extend(word, a + b)
    ensures Extend(Extend(word, a), []) == Extend(word, a)
  {
    var w := if word.Some? then word.value else [];
    assert (w + a) + b == w + (a + b) && (w + a) + [] == w + a;
  }

  lemma {:induction false} WordReadsBack(parts: seq<Part>, t: string, words: seq<Word>, word: Option<Word>)
    requires WordFits(parts)
    ensures Parse(WordText(parts) + t, Unquoted, words, word) ==
            if WordNulFree(parts) then Parse(t, Unquoted, words, Extend(word, WordMeaning(parts))) else Nul
    decreases |parts|
  {
    assert parts != [];
    hide *;
    var p, more := parts[0], parts[1..];
    WordSplit(parts);
    Regroup(Written(p), WordText(more), t);
    PartReadsBack(p, WordText(more) + t, words, word);
    ExtendTwice(word, Meaning(p), WordMeaning(more));
    if more == [] {
      Regroup("", "", t);
    } else {
      WordReadsBack(more, t, words, Extend(word, Meaning(p)));
    }
  }

  function LineText(line: seq<seq<Part>>): string
    decreases |line|
  {
    if line == [] then "\n"
    else if |line| == 1 then WordText(line[0]) + "\n"
    else WordText(line[0]) + " " + LineText(line[1..])
  }

  function LineMeaning(line: seq<seq<Part>>): seq<Word>
    decreases |line|
  {
    if line == [] then [] else [WordMeaning(line[0])] + LineMeaning(line[1..])
  }

  lemma WordEnds(c: char, t: string, words: seq<Word>, word: Word)
    requires c == ' ' || c == '\n'
    ensures Parse([c] + t, Unquoted, words, Some(word)) ==
            if c == '\n' then Command(words + [word], t) else Parse(t, Unquoted, words + [word], None)
  {
    assert ([c] + t)[1..] == t;
  }

  /**
   A line of words, each made of plain text, quoted values and double-quoted expansions, is read as exactly one
   command with exactly those words, and the text after the line is untouched, if and only if every quoted
   value is free of NUL; otherwise the NUL is met.
   */
  lemma {:induction false} LineReadsBack(line: seq<seq<Part>>, rest: string, words: seq<Word>)
    requires line != [] && LineFits(line)
    ensures Parse(LineText(line) + rest, Unquoted, words, None) ==
            if LineNulFree(line) then Command(words + LineMeaning(line), rest) else Nul
    decreases |line|
  {
    hide *;
    var w, more := line[0], line[1..];
    assert line == [w] + more;
    LineTextSplit(line);
    LineSplit(w, more);
    var next: char := if more == [] then '\n' else ' ';
    var t := if more == [] then rest else LineText(more) + rest;
    Regroup(WordText(w), if more == [] then ['\n'] else [' '] + LineText(more), rest);
    Regroup([' '], LineText(more), rest);
    WordReadsBack(w, [next] + t, words, None);
    FirstWord(WordMeaning(w));
    WordEnds(next, t, words, WordMeaning(w));
    if more != [] {
      LineReadsBack(more, rest, words + [WordMeaning(w)]);
      assert words + [WordMeaning(w)] + LineMeaning(more) == words + ([WordMeaning(w)] + LineMeaning(more));
    }
  }

  lemma FirstWord(m: Word)
    ensures Extend(None, m) == Some(m)
  {
    assert [] + m == m;
  }

  lemma LineTextSplit(line: seq<seq<Part>>)
    requires line != []
    ensures LineText(line) == WordText(line[0]) + if line[1..] == [] then ['\n'] else [' '] + LineText(line[1..])
  {
    hide WordText;
  }

  // One more word in front of a line.
  lemma LineSplit(w: seq<Part>, more: seq<seq<Part>>)
    ensures LineMeaning([w] + more) == [WordMeaning(w)] + LineMeaning(more) && LineMeaning([]) == []
    ensures LineFits([w] + more) <==> WordFits(w) && LineFits(more)
    ensures LineNulFree([w] + more) <==> WordNulFree(w) && LineNulFree(more)
    ensures LineFits([]) && LineNulFree([])
  {
    hide WordMeaning, WordFits, WordNulFree;
    assert ([w] + more)[1..] == more && forall x :: x in [w] + more <==> x == w || x in more;
  }

  predicate LineFits(line: seq<seq<Part>>) { forall w :: w in line ==> WordFits(w) }

  predicate LineNulFree(line: seq<seq<Part>>) { forall w :: w in line ==> WordNulFree(w) }

  // ---------- the launcher ----------

  function Assignment(name: string, value: string): seq<seq<Part>> { [[Bare(name + "="), Quoted(value)]] }

  function Export(name: string, value: string): seq<seq<Part>> { [[Bare("export")], [Bare(name + "="), Quoted(value)]] }

  // Words of one part each.
  function Singles(parts: seq<Part>): (line: seq<seq<Part>>)
    ensures |line| == |parts|
    decreases |parts|
  {
    if parts == [] then [] else [[parts[0]]] + Singles(parts[1..])
  }

  function Meanings(parts: seq<Part>): seq<Word> { seq(|parts|, i requires 0 <= i < |parts| => Meaning(parts[i])) }

  function ExecParts(runner: string, leases: string): seq<Part>
  {
    [Bare("exec"), Braced(NODE), Quoted(runner), Named("CURRENT_LINK"), Quoted(leases), Named("@")]
  }

  const NODE := "CC_NODE_PATH:-node"

  lemma OnePart(p: Part)
    ensures WordMeaning([p]) == Meaning(p) && (WordFits([p]) <==> PartFits(p)) && (WordNulFree([p]) <==> NulFree(p))
  {
    hide Meaning, PartFits, NulFree;
    WordSplit([p]);
    assert [p][1..] == [] && Meaning(p) + [] == Meaning(p);
  }

  lemma TwoParts(p: Part, q: Part)
    ensures WordMeaning([p, q]) == Meaning(p) + Meaning(q)
    ensures (WordFits([p, q]) <==> PartFits(p) && PartFits(q)) && (WordNulFree([p, q]) <==> NulFree(p) && NulFree(q))
  {
    hide Meaning, PartFits, NulFree, WordMeaning, WordFits, WordNulFree;
    OnePart(q);
    WordSplit([p, q]);
    assert [p, q][1..] == [q];
  }

  lemma NamesArePlain(name: string)
    requires forall c :: c in name ==> NameChar(c)
    ensures PartFits(Bare(name + "=")) && (name != "" ==> PartFits(Bare(name)) && PartFits(Named(name)))
  {
    forall c | c in name + "=" ensures c !in ACTIVE && c !in {'\0', '\n', ' ', '\t', '\'', '"', '\\'} {
      assert c == '=' || NameChar(c);
    }
  }

  /** An assignment in the launcher sets exactly the given value, if and only if that is free of NUL. */
  lemma AssignmentReadsBack(name: string, value: string, rest: string)
    requires forall c :: c in name ==> NameChar(c)
    ensures Parse(LineText(Assignment(name, value)) + rest, Unquoted, [], None)
            == if '\0' in value then Nul else Command([Text(name + "=") + Text(value)], rest)
  {
    NamesArePlain(name);
    var b, q := Bare(name + "="), Quoted(value);
    assert PartFits(q) && NulFree(b) && (NulFree(q) <==> '\0' !in value);
    hide PartFits, NulFree, WordFits, WordNulFree, WordMeaning, Parse, Text, LineMeaning, WordText, LineText, LineFits, LineNulFree;
    TwoParts(b, q);
    LineSplit([b, q], []);
    assert [[b, q]] + [] == Assignment(name, value);
    LineReadsBack(Assignment(name, value), rest, []);
    assert [] + [WordMeaning([b, q])] == [WordMeaning([b, q])] + [] == [WordMeaning([b, q])];
  }

  /** An export in the launcher sets exactly the given variable to the given value. */
  lemma ExportReadsBack(name: string, value: string, rest: string)
    requires forall c :: c in name ==> NameChar(c)
    ensures Parse(LineText(Export(name, value)) + rest, Unquoted, [], None)
            == if '\0' in value then Nul else Command([Text("export"), Text(name + "=") + Text(value)], rest)
  {
    NamesArePlain(name);
    NamesArePlain("export");
    var e, b, q := Bare("export"), Bare(name + "="), Quoted(value);
    assert PartFits(q) && NulFree(b) && NulFree(e) && (NulFree(q) <==> '\0' !in value);
    hide PartFits, NulFree, WordFits, WordNulFree, WordMeaning, Parse, Text, LineMeaning, WordText, LineText, LineFits, LineNulFree;
    OnePart(e);
    TwoParts(b, q);
    LineSplit([b, q], []);
    LineSplit([e], [[b, q]]);
    assert [[b, q]] + [] == [[b, q]] && [[e]] + [[b, q]] == Export(name, value);
    LineReadsBack(Export(name, value), rest, []);
    assert [] + ([Text("export")] + ([WordMeaning([b, q])] + [])) == [Text("export"), WordMeaning([b, q])];
  }

  lemma {:induction false} SinglesMean(parts: seq<Part>)
    ensures LineMeaning(Singles(parts)) == Meanings(parts)
    ensures LineFits(Singles(parts)) <==> forall p :: p in parts ==> PartFits(p)
    ensures LineNulFree(Singles(parts)) <==> forall p :: p in parts ==> NulFree(p)
    decreases |parts|
  {
    hide LineMeaning, LineFits, LineNulFree, PartFits, NulFree, Meaning, WordMeaning, WordFits, WordNulFree;
    LineSplit([], []);
    if parts != [] {
      SinglesMean(parts[1..]);
      OnePart(parts[0]);
      LineSplit([parts[0]], Singles(parts[1..]));
      assert Meanings(parts) == [Meaning(parts[0])] + Meanings(parts[1..]);
      assert forall p :: p in parts <==> p == parts[0] || p in parts[1..];
    }
  }

  lemma NodeFits()
    ensures PartFits(Braced(NODE))
  {
    assert |NODE| == 18;
    forall i | 0 <= i < |NODE| ensures BodyChar(NODE[i]) {}
  }

  lemma LinkFits()
    ensures PartFits(Named("CURRENT_LINK"))
  {
    var name := "CURRENT_LINK";
    assert |name| == 12;
    forall i | 0 <= i < |name| ensures NameChar(name[i]) {}
  }

  lemma FixedPartsFit()
    ensures PartFits(Bare("exec")) && PartFits(Named("CURRENT_LINK")) && PartFits(Braced(NODE)) && PartFits(Named("@"))
  {
    NodeFits();
    LinkFits();
    NamesArePlain("exec");
  }

  lemma ExecFits(runner: string, leases: string)
    ensures forall p :: p in ExecParts(runner, leases) ==> PartFits(p)
    ensures (forall p :: p in ExecParts(runner, leases) ==> NulFree(p)) <==> '\0' !in runner && '\0' !in leases
  {
    FixedPartsFit();
    assert PartFits(Quoted(runner)) && PartFits(Quoted(leases));
    hide PartFits;
    assert Quoted(runner) in ExecParts(runner, leases) && Quoted(leases) in ExecParts(runner, leases);
  }

  /**
   The launcher's last line runs the node executable with exactly the runner, the current link, the lease
   directory and the launcher's own arguments, if and only if the two embedded paths are free of NUL.
   */
  lemma ExecReadsBack(runner: string, leases: string, rest: string)
    ensures Parse(LineText(Singles(ExecParts(runner, leases))) + rest, Unquoted, [], None)
            == if '\0' in runner || '\0' in leases then Nul
               else Command([Text("exec"), [Expansion(NODE)], Text(runner), [Expansion("CURRENT_LINK")], Text(leases),
                             [Expansion("@")]], rest)
  {
    var parts := ExecParts(runner, leases);
    ExecFits(runner, leases);
    SinglesMean(parts);
    assert Meanings(parts) == [Text("exec"), [Expansion(NODE)], Text(runner), [Expansion("CURRENT_LINK")], Text(leases), [Expansion("@")]] by {
      hide Text;
    }
    var line := Singles(parts);
    assert |line| == 6 && [] + LineMeaning(line) == Meanings(parts);
    hide *;
    LineReadsBack(line, rest, []);
  }

  lemma WordOfOne(p: Part)
    ensures WordText([p]) == Written(p)
  {
    hide Written;
    assert [p][1..] == [] && Written(p) + "" == Written(p);
  }

  lemma LineOf(w: seq<Part>, more: seq<seq<Part>>)
    ensures LineText([w] + more) == WordText(w) + if more == [] then "\n" else " " + LineText(more)
  {
    hide WordText;
    assert ([w] + more)[1..] == more;
  }

  /** The launcher's lines as they are written. */
  lemma LinesAreWritten(name: string, value: string, runner: string, leases: string)
    ensures LineText(Assignment(name, value)) == name + "=" + Quote(value) + "\n"
    ensures LineText(Export(name, value)) == "export " + name + "=" + Quote(value) + "\n"
    ensures LineText(Singles(ExecParts(runner, leases)))
            == "exec \"${CC_NODE_PATH:-node}\" " + Quote(runner) + " \"$CURRENT_LINK\" " + Quote(leases) + " \"$@\"\n"
  {
    hide LineText, WordText, Quote;
    var word := [Bare(name + "="), Quoted(value)];
    assert WordText(word) == name + "=" + Quote(value) by {
      WordOfOne(Quoted(value));
      WordSplit(word);
      assert word[1..] == [Quoted(value)];
    }
    LineOf(word, []);
    WordOfOne(Bare("export"));
    LineOf([Bare("export")], [word]);
    assert [word] + [] == Assignment(name, value) && [[Bare("export")]] + [word] == Export(name, value);
    assert "export" + (" " + (name + "=" + Quote(value) + "\n")) == "export " + name + "=" + Quote(value) + "\n";
    ExecIsWritten(runner, leases);
  }

  lemma SinglesOf(p: Part, more: seq<Part>)
    ensures Singles([p] + more) == [[p]] + Singles(more)
    ensures LineText(Singles([p] + more)) == Written(p) + if more == [] then "\n" else " " + LineText(Singles(more))
  {
    hide Written, LineText, WordText;
    assert ([p] + more)[1..] == more;
    WordOfOne(p);
    LineOf([p], Singles(more));
  }

  lemma ExecIsWritten(runner: string, leases: string)
    ensures LineText(Singles(ExecParts(runner, leases)))
            == "exec \"${CC_NODE_PATH:-node}\" " + Quote(runner) + " \"$CURRENT_LINK\" " + Quote(leases) + " \"$@\"\n"
  {
    hide LineText, WordText, Quote, Singles;
    var args, link := Named("@"), Named("CURRENT_LINK");
    SinglesOf(args, []);
    SinglesOf(Quoted(leases), [args]);
    SinglesOf(link, [Quoted(leases), args]);
    SinglesOf(Quoted(runner), [link, Quoted(leases), args]);
    SinglesOf(Braced(NODE), [Quoted(runner), link, Quoted(leases), args]);
    SinglesOf(Bare("exec"), [Braced(NODE), Quoted(runner), link, Quoted(leases), args]);
    assert [args] + [] == [args] && [Quoted(leases)] + [args] == [Quoted(leases), args];
    assert [link] + [Quoted(leases), args] == [link, Quoted(leases), args];
    assert [Quoted(runner)] + [link, Quoted(leases), args] == [Quoted(runner), link, Quoted(leases), args];
    assert [Braced(NODE)] + [Quoted(runner), link, Quoted(leases), args] == [Braced(NODE), Quoted(runner), link, Quoted(leases), args];
    assert [Bare("exec")] + [Braced(NODE), Quoted(runner), link, Quoted(leases), args] == ExecParts(runner, leases);
    Spelled(Quote(runner), Quote(leases));
  }

  lemma Spelled(r: string, l: string)
    ensures "exec" + (" " + ("\"${" + NODE + "}\"" + (" " + (r + (" " + ("\"$" + "CURRENT_LINK" + "\"" + (" " + (l + (" " + ("\"$" + "@" + "\"" + "\n"))))))))))
            == "exec \"${CC_NODE_PATH:-node}\" " + r + " \"$CURRENT_LINK\" " + l + " \"$@\"\n"
  {
    var node, link, args := "\"${" + NODE + "}\"", "\"$" + "CURRENT_LINK" + "\"", "\"$" + "@" + "\"" + "\n";
    assert "exec" + (" " + (node + " ")) == "exec \"${CC_NODE_PATH:-node}\" ";
    assert " " + (link + " ") == " \"$CURRENT_LINK\" " && " " + args == " \"$@\"\n";
    Flatten("exec", node, r, link, l, " " + args);
  }

  lemma Flatten(a: string, b: string, r: string, c: string, l: string, d: string)
    ensures a + (" " + (b + (" " + (r + (" " + (c + (" " + (l + d)))))))) == (a + (" " + (b + " "))) + r + (" " + (c + " ")) + l + d
  {
    var e := l + d;
    assert " " + (c + (" " + e)) == (" " + (c + " ")) + e;
    Flatten2(a, b, r + ((" " + (c + " ")) + e));
    var x, y := a + (" " + (b + " ")), " " + (c + " ");
    assert x + (r + (y + (l + d))) == x + r + y + l + d;
  }

  lemma Flatten2(a: string, b: string, e: string)
    ensures a + (" " + (b + (" " + e))) == (a + (" " + (b + " "))) + e
  {
  }
}
