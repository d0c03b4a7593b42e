/** `strip_akua_decorators`: blank out `@ui(...)` decorator lines of a KCL text without
    moving any other line. */
module Decorators {
  import opened Text
  import opened Lexer
  import opened Regions

  const UI := "@ui("

  // ----- paren balance of one line -----

  function Delta(c: char): int {
    if c == '(' then 1 else if c == ')' then -1 else 0
  }

  /** Opening minus closing parens among the code characters of `s[..n]`. */
  function NetParens(s: string, n: nat): int
    requires n <= |s|
  {
    if n == 0 then 0 else NetParens(s, n - 1) + if CodeAt(s, n - 1) then Delta(s[n - 1]) else 0
  }

  function Balance(line: string): int { NetParens(line, |line|) }

  /** The same sum taken token by token, the order in which a scanner meets them. */
  function TokenBalance(s: string): int
    decreases |s|
  {
    if s == [] then 0
    else (if OpensCode(s) then Delta(s[0]) else 0) + TokenBalance(s[TokenLength(s)..])
  }

  lemma {:induction false} NetParensSplit(s: string, n: nat)
    requires s != [] && TokenLength(s) <= n <= |s|
    ensures NetParens(s, n) ==
            (if OpensCode(s) then Delta(s[0]) else 0) + NetParens(s[TokenLength(s)..], n - TokenLength(s))
  {
    var t := TokenLength(s);
    if n == t {
      NetParensWithin(s, n);
    } else {
      NetParensSplit(s, n - 1);
      assert s[t..][n - 1 - t] == s[n - 1];
    }
  }

  lemma {:induction false} NetParensWithin(s: string, n: nat)
    requires s != [] && 0 < n <= TokenLength(s)
    ensures NetParens(s, n) == if OpensCode(s) then Delta(s[0]) else 0
  {
    if n == 1 {
      assert NetParens(s, 0) == 0;
    } else {
      NetParensWithin(s, n - 1);
    }
  }

  lemma {:induction false} BalanceIsTokenBalance(s: string)
    ensures Balance(s) == TokenBalance(s)
    decreases |s|
  {
    if s != [] {
      NetParensSplit(s, |s|);
      BalanceIsTokenBalance(s[TokenLength(s)..]);
    }
  }

  datatype State = Code | Str(quote: char) | Str3(quote: char)

  /** What is left to count when the automaton stands before `rest` in `state`. */
  ghost function Pending(state: State, rest: string): int {
    match state
    case Code => TokenBalance(rest)
    case Str(q) => TokenBalance(rest[StringTail(rest, q)..])
    case Str3(q) => TokenBalance(rest[TripleTail(rest, q)..])
  }

  ghost function Suffix(line: string, i: nat): string {
    if i <= |line| then line[i..] else []
  }

  /** The parens left to count from byte `i` on. */
  ghost function Left(state: State, line: string, i: nat): int { Pending(state, Suffix(line, i)) }

  /** The byte automaton: counts exactly the parens the reference lexer calls code. */
  method ParenBalance(line: string) returns (depth: int)
    requires '\n' !in line
    ensures depth == Balance(line)
  {
    BalanceIsTokenBalance(line);
    var state := Code;
    depth := 0;
    var i := 0;
    while i < |line|
      invariant 0 <= i <= |line| + 1
      invariant state.Code? || IsQuote(state.quote)
      invariant depth + Left(state, line, i) == Balance(line)
    {
      var b := line[i];
      match state {
        case Code =>
          CodeMoves(line, i);
          if i + 2 < |line| && line[i..i + 3] == "\"\"\"" {
            state := Str3('"');
            i := i + 3;
            continue;
          }
          if i + 2 < |line| && line[i..i + 3] == "'''" {
            state := Str3('\'');
            i := i + 3;
            continue;
          }
          if b == '"' {
            state := Str('"');
          } else if b == '\'' {
            state := Str('\'');
          } else if b == '(' {
            depth := depth + 1;
          } else if b == ')' {
            depth := depth - 1;
          } else if b == '#' {
            break;
          }
        case Str(q) =>
          StringMoves(line, i, q);
          if b == '\\' {
            i := i + 1;
          } else if b == q {
            state := Code;
          }
        case Str3(q) =>
          TripleMoves(line, i, q);
          if i + 2 < |line| && line[i..i + 3] == Triple(q) {
            state := Code;
            i := i + 3;
            continue;
          }
      }
      i := i + 1;
    }
  }

  /** One move outside strings. */
  lemma {:induction false} CodeMoves(line: string, i: nat)
    requires i < |line| && '\n' !in line
    ensures Left(Code, line, i) ==
      if i + 2 < |line| && line[i..i + 3] == "\"\"\"" then Left(Str3('"'), line, i + 3)
      else if i + 2 < |line| && line[i..i + 3] == "'''" then Left(Str3('\''), line, i + 3)
      else if line[i] == '"' then Left(Str('"'), line, i + 1)
      else if line[i] == '\'' then Left(Str('\''), line, i + 1)
      else if line[i] == '#' then 0
      else Delta(line[i]) + Left(Code, line, i + 1)
  {
    var rest := line[i..];
    Slices(line, i);
    if StartsWith(rest, Triple('"')) {
      OpenTriple(rest, '"');
    } else if StartsWith(rest, Triple('\'')) {
      OpenTriple(rest, '\'');
    } else if IsQuote(line[i]) {
      OpenString(rest, line[i]);
    } else {
      PlainCode(rest);
    }
  }

  /** One move inside a string; an escape at the end of the line moves past it. */
  lemma {:induction false} StringMoves(line: string, i: nat, q: char)
    requires i < |line| && IsQuote(q)
    ensures Left(Str(q), line, i) ==
      if line[i] == '\\' then Left(Str(q), line, i + 2)
      else if line[i] == q then Left(Code, line, i + 1)
      else Left(Str(q), line, i + 1)
  {
    Slices(line, i);
    InsideString(line[i..], q);
  }

  /** One move inside a triple-quoted string. */
  lemma {:induction false} TripleMoves(line: string, i: nat, q: char)
    requires i < |line| && IsQuote(q)
    ensures Left(Str3(q), line, i) ==
      if i + 2 < |line| && line[i..i + 3] == Triple(q) then Left(Code, line, i + 3) else Left(Str3(q), line, i + 1)
  {
    Slices(line, i);
    TripleText();
    InsideTriple(line[i..], q);
  }

  /** What the automaton reads off the line, in terms of the rest of it. */
  lemma {:induction false} Slices(line: string, i: nat)
    requires i < |line|
    ensures
      var rest := line[i..];
      && rest != [] && rest[0] == line[i] && ('\n' !in line ==> '\n' !in rest)
      && rest[1..] == Suffix(line, i + 1)
      && (|rest| > 1 ==> rest[2..] == Suffix(line, i + 2))
      && (|rest| > 2 ==> rest[3..] == Suffix(line, i + 3))
      && (StartsWith(rest, Triple('"')) <==> i + 2 < |line| && line[i..i + 3] == "\"\"\"")
      && (StartsWith(rest, Triple('\'')) <==> i + 2 < |line| && line[i..i + 3] == "'''")
  {
    assert |line| - i > 2 ==> line[i..][..3] == line[i..i + 3];
    TripleText();
  }

  lemma {:induction false} TripleText()
    ensures Triple('"') == "\"\"\"" && Triple('\'') == "'''"
  {
  }

  /** A character of code that opens no string. */
  lemma {:induction false} PlainCode(rest: string)
    requires rest != [] && !IsQuote(rest[0]) && '\n' !in rest
    ensures TokenBalance(rest) == if rest[0] == '#' then 0 else Delta(rest[0]) + TokenBalance(rest[1..])
  {
    if rest[0] == '#' {
      IndexOfUnique(rest, '\n', |rest|);
    }
  }

  lemma {:induction false} OpenTriple(rest: string, q: char)
    requires IsQuote(q) && StartsWith(rest, Triple(q))
    ensures TokenBalance(rest) == Pending(Str3(q), rest[3..])
  {
    var n := TokenLength(rest);
    assert rest[n..] == rest[3..][n - 3..];
  }

  lemma {:induction false} OpenString(rest: string, q: char)
    requires rest != [] && rest[0] == q && IsQuote(q) && !StartsWith(rest, Triple(q))
    ensures TokenBalance(rest) == Pending(Str(q), rest[1..])
  {
    var n := TokenLength(rest);
    assert rest[n..] == rest[1..][n - 1..];
  }

  lemma {:induction false} InsideString(rest: string, q: char)
    requires rest != [] && IsQuote(q)
    ensures Pending(Str(q), rest) ==
            if rest[0] == '\\' then (if |rest| == 1 then 0 else Pending(Str(q), rest[2..]))
            else if rest[0] == q then TokenBalance(rest[1..])
            else Pending(Str(q), rest[1..])
  {
    var n := StringTail(rest, q);
    if rest[0] == '\\' && |rest| > 1 {
      assert rest[n..] == rest[2..][n - 2..];
    } else if rest[0] != '\\' && rest[0] != q {
      assert rest[n..] == rest[1..][n - 1..];
    }
  }

  lemma {:induction false} InsideTriple(rest: string, q: char)
    requires rest != [] && IsQuote(q)
    ensures Pending(Str3(q), rest) ==
            if StartsWith(rest, Triple(q)) then TokenBalance(rest[3..]) else Pending(Str3(q), rest[1..])
  {
    var n := TripleTail(rest, q);
    if !StartsWith(rest, Triple(q)) {
      assert rest[n..] == rest[1..][n - 1..];
    }
  }

  // ----- the pass over lines -----

  predicate IsUi(line: string) { StartsWith(TrimStart(line), UI) }

  function Marks(ls: seq<string>): (ms: seq<Mark>)
    ensures |ms| == |ls|
  {
    seq(|ls|, i requires 0 <= i < |ls| => Mark(IsUi(ls[i]), Balance(ls[i])))
  }

  /** The regions of a text, as a maintainer would describe them: `IsPartition` has one
      solution, and this is it. */
  function DecoratorRegions(ls: seq<string>): (rs: seq<Region>)
    ensures IsPartition(Marks(ls), rs, 0)
    ensures forall qs :: IsPartition(Marks(ls), qs, 0) ==> qs == rs
  {
    FromIsPartition(Marks(ls), 0);
    assert forall qs :: IsPartition(Marks(ls), qs, 0) ==> qs == From(Marks(ls), 0) by {
      forall qs | IsPartition(Marks(ls), qs, 0) ensures qs == From(Marks(ls), 0) {
        PartitionIsUnique(Marks(ls), qs, From(Marks(ls), 0), 0);
      }
    }
    From(Marks(ls), 0)
  }

  /** Decorator regions emptied, every other line as it was. */
  function Strip(ls: seq<string>): (out: seq<string>)
    ensures |out| == |ls|
  {
    seq(|ls|, i requires 0 <= i < |ls| => if Covered(DecoratorRegions(ls), i) then "" else ls[i])
  }

  function StripText(source: string): string {
    if Contains(source, UI) then Unlines(Strip(Lines(source))) else source
  }

  function Newlines(n: nat): string {
    if n == 0 then "" else Newlines(n - 1) + "\n"
  }

  lemma {:induction false} RegionStep(ms: seq<Mark>, i: nat, depth: int, b: int)
    requires i < |ms| && ms[i].weight == b
    ensures RegionEnd(ms, i, depth) ==
      if depth + b <= 0 || i + 1 == |ms| then i + 1 else RegionEnd(ms, i + 1, depth + b)
  {
  }

  /** The inner loop: consume one decorator from line `at`, a newline for every line, until
      its parens balance or the text ends. */
  method BlankDecorator(lines: seq<string>, at: nat) returns (blanks: string, next: nat)
    requires at < |lines| && NewlineFree(lines)
    ensures next == RegionEnd(Marks(lines), at, 0)
    ensures blanks == Newlines(next - at)
  {
    ghost var ms := Marks(lines);
    ghost var end := RegionEnd(ms, at, 0);
    var depth := 0;
    var current := lines[at];
    blanks, next := "", at + 1;
    while true
      invariant at < next <= end
      invariant current == lines[next - 1]
      invariant RegionEnd(ms, next - 1, depth) == end
      invariant blanks == Newlines(next - 1 - at)
      decreases |lines| - next
    {
      var b := ParenBalance(current);
      RegionStep(ms, next - 1, depth, b);
      depth := depth + b;
      blanks := blanks + "\n";
      if depth <= 0 || next == |lines| {
        break;
      }
      current := lines[next];
      next := next + 1;
    }
  }

  method StripAkuaDecorators(source: string) returns (out: string)
    ensures out == StripText(source)
  {
    if !Contains(source, UI) {
      return source;
    }
    out := "";
    var lines := Lines(source);
    var next := 0;
    while next < |lines|
      invariant next <= |lines|
      invariant out == Unlines(Strip(lines)[..next])
      invariant Ahead(lines, next)
    {
      var line := lines[next];
      if !IsUi(line) {
        StepOver(lines, next);
        OneLine(Strip(lines), next);
        out := out + line + "\n";
        next := next + 1;
      } else {
        StepThrough(lines, next);
        var blanks, end := BlankDecorator(lines, next);
        BlankSlice(Strip(lines), next, end);
        out := out + blanks;
        next := end;
      }
    }
    assert Strip(lines)[..next] == Strip(lines);
  }

  lemma {:induction false} OneLine(ls: seq<string>, at: nat)
    requires at < |ls|
    ensures Unlines(ls[..at + 1]) == Unlines(ls[..at]) + ls[at] + "\n"
  {
    assert ls[..at + 1] == ls[..at] + [ls[at]];
    UnlinesSnoc(ls[..at], ls[at]);
  }

  lemma {:induction false} BlankSlice(ls: seq<string>, a: nat, b: nat)
    requires a <= b <= |ls| && forall i :: a <= i < b ==> ls[i] == ""
    ensures Unlines(ls[..b]) == Unlines(ls[..a]) + Newlines(b - a)
    decreases b
  {
    if a < b {
      BlankSlice(ls, a, b - 1);
      UnlinesSnoc(ls[..b - 1], "");
      assert ls[..b] == ls[..b - 1] + [""];
    }
  }

  /** The regions still to come are those a scan from `at` would find. */
  ghost predicate Ahead(ls: seq<string>, at: nat)
    requires at <= |ls|
  {
    forall i :: at <= i < |ls| ==>
      Covered(DecoratorRegions(ls), i) == Covered(From(Marks(ls), at), i)
  }

  lemma {:induction false} StepOver(ls: seq<string>, at: nat)
    requires at < |ls| && Ahead(ls, at) && !IsUi(ls[at])
    ensures Ahead(ls, at + 1) && Strip(ls)[at] == ls[at]
  {
    ClosedLineIsSkipped(Marks(ls), at);
  }

  lemma {:induction false} StepThrough(ls: seq<string>, at: nat)
    requires at < |ls| && Ahead(ls, at) && IsUi(ls[at])
    ensures var end := RegionEnd(Marks(ls), at, 0);
      Ahead(ls, end) && forall i :: at <= i < end ==> Strip(ls)[i] == ""
  {
    var ms := Marks(ls);
    var end := RegionEnd(ms, at, 0);
    forall i | at <= i < |ls|
      ensures Covered(From(ms, at), i) == (i < end || Covered(From(ms, end), i))
    {
      CoveredCons(Region(at, end), From(ms, end), i);
    }
  }

  // ----- what the pass does to a text -----

  /** Line numbers survive: as many lines out as in, each untouched or emptied; the emptied
      ones are the decorator regions, and no decorator line is left. */
  lemma {:induction false} StripPreservesLines(ls: seq<string>)
    ensures |Strip(ls)| == |ls|
    ensures forall i :: 0 <= i < |ls| ==>
      Strip(ls)[i] == if Covered(DecoratorRegions(ls), i) then "" else ls[i]
    ensures forall i :: 0 <= i < |ls| ==> !IsUi(Strip(ls)[i])
  {
    forall i | 0 <= i < |ls| ensures !IsUi(Strip(ls)[i]) {
      if IsUi(ls[i]) {
        assert Marks(ls)[i].opens;
        assert Covered(DecoratorRegions(ls), i);
      }
    }
  }

  lemma {:induction false} StripFixesPlainLines(ls: seq<string>)
    requires forall i :: 0 <= i < |ls| ==> !IsUi(ls[i])
    ensures Strip(ls) == ls
  {
    NothingOpens(Marks(ls), 0);
  }

  lemma {:induction false} UiLineMentionsUi(line: string)
    requires IsUi(line)
    ensures Contains(line, UI)
  {
    TrimStartIsSuffix(line);
    var k := |line| - |TrimStart(line)|;
    assert line[k..k + |UI|] == TrimStart(line)[..|UI|] == UI;
    assert OccursAt(line, UI, k);
  }

  /** On lines, the fast path and the scan agree: whichever runs, the lines of the result
      are the stripped lines of the source. */
  lemma {:induction false} LinesOfStripText(source: string)
    ensures Lines(StripText(source)) == Strip(Lines(source))
  {
    var ls := Lines(source);
    if Contains(source, UI) {
      forall l | l in Strip(ls) ensures '\n' !in l {
        var i :| 0 <= i < |Strip(ls)| && Strip(ls)[i] == l;
        assert ls[i] in ls;
      }
      LinesOfUnlines(Strip(ls));
    } else {
      forall i | 0 <= i < |ls| ensures !IsUi(ls[i]) {
        LinesLackSubstring(source, UI, ls[i]);
        if IsUi(ls[i]) { UiLineMentionsUi(ls[i]); }
      }
      StripFixesPlainLines(ls);
    }
  }

  /** A second pass changes nothing. */
  lemma {:induction false} StripTextIdempotent(source: string)
    ensures StripText(StripText(source)) == StripText(source)
  {
    if Contains(source, UI) {
      var ls := Lines(source);
      LinesOfStripText(source);
      StripPreservesLines(ls);
      StripFixesPlainLines(Strip(ls));
    }
  }
}
