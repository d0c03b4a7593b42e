/** Lines and the text they make: counting parens line by line, as the decorator pass does,
    against the lexer run over the whole text. */
module DecoratorText {
  import opened Text
  import opened Lexer
  import opened Regions
  import opened Decorators

  // ----- string literals that end on their line -----

  predicate StringCloses(body: string, q: char) {
    body != [] &&
    if body[0] == '\\' then |body| > 1 && StringCloses(body[2..], q)
    else body[0] == q || StringCloses(body[1..], q)
  }

  predicate TripleCloses(body: string, q: char) {
    body != [] && (StartsWith(body, Triple(q)) || TripleCloses(body[1..], q))
  }

  predicate TokenCloses(s: string)
    requires s != []
  {
    IsQuote(s[0]) ==> if StartsWith(s, Triple(s[0])) then TripleCloses(s[3..], s[0]) else StringCloses(s[1..], s[0])
  }

  /** No string literal of the line runs past its end. */
  predicate EndsInCode(line: string)
    decreases |line|
  {
    line != "" ==> TokenCloses(line) && EndsInCode(line[TokenLength(line)..])
  }

  lemma {:induction false} StringGoesOn(body: string, q: char, more: string)
    requires IsQuote(q)
    ensures StringCloses(body, q) ==> StringTail(body + ("\n" + more), q) == StringTail(body, q)
    ensures !StringCloses(body, q) ==> StringTail(body, q) == |body|
    ensures !StringCloses(body, q) && more == "(" ==> StringTail(body + ("\n" + more), q) == |body| + 2
  {
    var s := body + ("\n" + more);
    if body == [] {
      assert s == "\n" + more && s[1..] == more;
      if more == "(" { OpenParenIsNoQuote(q); }
    } else if body[0] == '\\' && |body| > 1 {
      assert s[2..] == body[2..] + ("\n" + more);
      StringGoesOn(body[2..], q, more);
    } else if body[0] == '\\' {
      assert s[2..] == more;
      if more == "(" { OpenParenIsNoQuote(q); }
    } else if body[0] != q {
      assert s[1..] == body[1..] + ("\n" + more);
      StringGoesOn(body[1..], q, more);
    }
  }

  lemma {:induction false} OpenParenIsNoQuote(q: char)
    requires IsQuote(q)
    ensures StringTail("(", q) == 1 && TripleTail("(", q) == 1
  {
    assert "("[1..] == [] && "("[0] == '(';
    assert StringTail([], q) == 0 && TripleTail([], q) == 0;
  }

  lemma {:induction false} TripleGoesOn(body: string, q: char, more: string)
    requires IsQuote(q)
    ensures TripleCloses(body, q) ==> TripleTail(body + ("\n" + more), q) == TripleTail(body, q)
    ensures !TripleCloses(body, q) ==> TripleTail(body, q) == |body|
    ensures !TripleCloses(body, q) && more == "(" ==> TripleTail(body + ("\n" + more), q) == |body| + 2
  {
    var s := body + ("\n" + more);
    NoTripleAcross(body, q, more);
    if body == [] {
      assert s == "\n" + more && s[1..] == more;
      if more == "(" { OpenParenIsNoQuote(q); }
    } else if !StartsWith(body, Triple(q)) {
      assert s[1..] == body[1..] + ("\n" + more);
      TripleGoesOn(body[1..], q, more);
    }
  }

  lemma {:induction false} NoTripleAcross(s: string, q: char, more: string)
    requires IsQuote(q)
    ensures StartsWith(s + ("\n" + more), Triple(q)) <==> StartsWith(s, Triple(q))
  {
    var t := s + ("\n" + more);
    assert t[|s|] == '\n';
    if StartsWith(t, Triple(q)) {
      assert t[0] == q && t[1] == q && t[2] == q;
      assert |s| > 2;
      assert s[..3] == t[..3];
    }
    if StartsWith(s, Triple(q)) {
      assert t[..3] == s[..3];
    }
  }

  /** The first token of a text, read on its own and read with what follows its last line. */
  lemma {:induction false} TokenGoesOn(s: string, more: string)
    requires s != []
    ensures TokenCloses(s) ==> TokenLength(s + ("\n" + more)) == TokenLength(s)
    ensures !TokenCloses(s) ==> TokenLength(s) == |s| && !OpensCode(s)
    ensures !TokenCloses(s) && more == "(" ==> TokenLength(s + ("\n" + more)) == |s| + 2
  {
    var t := s + ("\n" + more);
    if s[0] == '#' {
      var i := IndexOf(s, '\n');
      assert forall k :: 0 <= k < i ==> t[k] == s[k] != '\n';
      IndexOfUnique(t, '\n', i);
    } else if IsQuote(s[0]) {
      NoTripleAcross(s, s[0], more);
      if StartsWith(s, Triple(s[0])) {
        assert t[3..] == s[3..] + ("\n" + more);
        TripleGoesOn(s[3..], s[0], more);
      } else {
        assert t[1..] == s[1..] + ("\n" + more);
        StringGoesOn(s[1..], s[0], more);
      }
    }
  }

  // ----- a line counts for itself -----

  /** Behind a line that ends in code the lexer starts afresh. */
  lemma {:induction false} ClosedLineCounts(s: string, more: string)
    requires '\n' !in s && EndsInCode(s)
    ensures TokenBalance(s + ("\n" + more)) == TokenBalance(s) + TokenBalance(more)
    decreases |s|
  {
    var t := s + ("\n" + more);
    if s == "" {
      assert t == "\n" + more && t[1..] == more;
      assert TokenLength(t) == 1;
    } else {
      TokenGoesOn(s, more);
      var n := TokenLength(s);
      assert t[n..] == s[n..] + ("\n" + more);
      ClosedLineCounts(s[n..], more);
    }
  }

  /** A line that does not takes what follows into its string. */
  lemma {:induction false} OpenLineSwallows(s: string)
    requires '\n' !in s && !EndsInCode(s)
    ensures TokenBalance(s + ("\n" + "(")) == TokenBalance(s)
    decreases |s|
  {
    var t := s + ("\n" + "(");
    var n := TokenLength(s);
    TokenGoesOn(s, "(");
    if TokenCloses(s) {
      assert t[n..] == s[n..] + ("\n" + "(");
      OpenLineSwallows(s[n..]);
    } else {
      assert s[n..] == "" && t[|s| + 2..] == "";
    }
  }

  /** A line's own balance is what it adds to any text that goes on behind it, if and only if
      no string literal runs past its end. */
  lemma {:induction false} LineCountsForItselfExactly(line: string)
    requires '\n' !in line
    ensures EndsInCode(line) <==>
      forall more :: TokenBalance(line + ("\n" + more)) == Balance(line) + TokenBalance(more)
  {
    BalanceIsTokenBalance(line);
    if EndsInCode(line) {
      forall more ensures TokenBalance(line + ("\n" + more)) == Balance(line) + TokenBalance(more) {
        ClosedLineCounts(line, more);
      }
    } else {
      OpenLineSwallows(line);
      assert "("[1..] == "" && "("[0] == '(';
      assert TokenBalance("(") == 1 + TokenBalance("");
      assert TokenBalance(line + ("\n" + "(")) != Balance(line) + TokenBalance("(");
    }
  }

  // ----- where the lexer starts afresh -----

  /** Behind `p` the lexer starts afresh. */
  ghost predicate Afresh(p: string) { forall t, k: nat :: CodeAt(p + t, |p| + k) == CodeAt(t, k) }

  lemma {:induction false} CodeBehindText(s: string, more: string, k: nat)
    requires EndsInCode(s)
    ensures CodeAt(s + ("\n" + more), |s| + 1 + k) == CodeAt(more, k)
    decreases |s|
  {
    var t := s + ("\n" + more);
    if s == "" {
      assert t == "\n" + more;
      CodeAtAfterNewline(more, k);
    } else {
      TokenGoesOn(s, more);
      var n := TokenLength(s);
      var u := s[n..] + ("\n" + more);
      assert t[n..] == u;
      CodeBehindText(s[n..], more, k);
      CodeBehindToken(t, u, |s| + 1 + k);
    }
  }

  lemma {:induction false} CodeBehindToken(t: string, u: string, k: nat)
    requires t != [] && u == t[TokenLength(t)..] && TokenLength(t) <= k
    ensures CodeAt(t, k) == CodeAt(u, k - TokenLength(t))
  {
  }

  /** A literal that is open at the end of `s` covers whatever comes before the next quote or
      backslash, and the character there too. */
  lemma {:induction false} OpenLiteralCovers(s: string, more: string, k: nat)
    requires !EndsInCode(s) && k < |more| && Inert(more, k)
    ensures !CodeAt(s + ("\n" + more), |s| + 1 + k)
    decreases |s|
  {
    var t := s + ("\n" + more);
    TokenGoesOn(s, more);
    var n := TokenLength(s);
    if TokenCloses(s) {
      assert t[n..] == s[n..] + ("\n" + more);
      OpenLiteralCovers(s[n..], more, k);
    } else {
      NoTripleAcross(s, s[0], more);
      if StartsWith(s, Triple(s[0])) {
        assert t[3..] == s[3..] + ("\n" + more);
        TripleCovers(s[3..], s[0], more, k);
      } else {
        assert t[1..] == s[1..] + ("\n" + more);
        StringCovers(s[1..], s[0], more, k);
      }
    }
  }

  /** Neither quotes nor backslashes among the first `k` characters. */
  predicate Inert(more: string, k: nat) {
    forall i :: 0 <= i < k && i < |more| ==> !IsQuote(more[i]) && more[i] != '\\'
  }

  lemma {:induction false} StringCovers(body: string, q: char, more: string, k: nat)
    requires IsQuote(q) && !StringCloses(body, q) && k < |more| && Inert(more, k)
    ensures StringTail(body + ("\n" + more), q) > |body| + 1 + k
    decreases |body|
  {
    var s := body + ("\n" + more);
    if body == [] {
      assert s == "\n" + more && s[1..] == more;
      TailCovers(more, q, k);
    } else if body[0] == '\\' && |body| > 1 {
      assert s[2..] == body[2..] + ("\n" + more);
      StringCovers(body[2..], q, more, k);
    } else if body[0] == '\\' {
      assert s[2..] == more;
      TailCovers(more, q, k);
    } else {
      assert s[1..] == body[1..] + ("\n" + more);
      StringCovers(body[1..], q, more, k);
    }
  }

  lemma {:induction false} TailCovers(more: string, q: char, k: nat)
    requires IsQuote(q) && k < |more| && Inert(more, k)
    ensures StringTail(more, q) > k
    decreases k
  {
    if k > 0 {
      assert forall i :: 0 <= i < |more[1..]| ==> more[1..][i] == more[i + 1];
      assert !IsQuote(more[0]) && more[0] != '\\';
      TailCovers(more[1..], q, k - 1);
    }
  }

  lemma {:induction false} TripleCovers(body: string, q: char, more: string, k: nat)
    requires IsQuote(q) && !TripleCloses(body, q) && k < |more| && Inert(more, k)
    ensures TripleTail(body + ("\n" + more), q) > |body| + 1 + k
    decreases |body|
  {
    var s := body + ("\n" + more);
    NoTripleAcross(body, q, more);
    if body == [] {
      assert s == "\n" + more && s[1..] == more;
      TripleTailCovers(more, q, k);
    } else {
      assert s[1..] == body[1..] + ("\n" + more);
      TripleCovers(body[1..], q, more, k);
    }
  }

  lemma {:induction false} TripleTailCovers(more: string, q: char, k: nat)
    requires IsQuote(q) && k < |more| && Inert(more, k)
    ensures TripleTail(more, q) > k
    decreases k
  {
    if k > 0 {
      assert forall i :: 0 <= i < |more[1..]| ==> more[1..][i] == more[i + 1];
      assert !IsQuote(more[0]);
      TripleTailCovers(more[1..], q, k - 1);
    }
  }

  /** Behind a text and a newline the lexer starts afresh if and only if no literal is open. */
  lemma {:induction false} AfreshExactly(s: string)
    ensures Afresh(s + "\n") <==> EndsInCode(s)
  {
    var p := s + "\n";
    if EndsInCode(s) {
      forall t, k: nat ensures CodeAt(p + t, |p| + k) == CodeAt(t, k) {
        assert p + t == s + ("\n" + t);
        CodeBehindText(s, t, k);
      }
    } else {
      OpenLiteralCovers(s, "(", 0);
      assert p + "(" == s + ("\n" + "(");
      assert CodeAt("(", 0);
      assert CodeAt(p + "(", |p| + 0) != CodeAt("(", 0);
    }
  }

  /** No literal is open behind the first `n` lines. */
  predicate ClosedBefore(ls: seq<string>, n: nat)
    requires n <= |ls|
  {
    n == 0 || EndsInCode(Unlines(ls[..n])[..|Unlines(ls[..n])| - 1])
  }

  lemma {:induction false} LinesEndInNewline(ls: seq<string>)
    requires ls != []
    ensures Unlines(ls) != ""
    ensures Unlines(ls) == Unlines(ls)[..|Unlines(ls)| - 1] + "\n"
  {
    UnlinesEndsWithNewline(ls);
  }

  lemma {:induction false} AfreshBehindLinesExactly(ls: seq<string>, n: nat)
    requires n <= |ls|
    ensures Afresh(Unlines(ls[..n])) <==> ClosedBefore(ls, n)
  {
    if n == 0 {
      assert Unlines(ls[..0]) == "";
      forall t, k: nat ensures CodeAt("" + t, |""| + k) == CodeAt(t, k) {
        assert "" + t == t;
      }
    } else {
      LinesEndInNewline(ls[..n]);
      AfreshExactly(Unlines(ls[..n])[..|Unlines(ls[..n])| - 1]);
    }
  }

  // ----- decorators and where they stand in the text -----

  function Indent(line: string): (n: nat)
    ensures n <= |line|
  {
    if line == [] || !IsWhitespace(line[0]) then 0 else 1 + Indent(line[1..])
  }

  /** In the whole text the decorator of line `at` is code. */
  predicate DecoratorIsCode(ls: seq<string>, at: nat)
    requires at < |ls|
  {
    CodeAt(Unlines(ls), |Unlines(ls[..at])| + Indent(ls[at]))
  }

  lemma {:induction false} IndentIsBlank(line: string)
    ensures line[Indent(line)..] == TrimStart(line)
    ensures forall i :: 0 <= i < Indent(line) ==> IsWhitespace(line[i])
  {
    if line != [] && IsWhitespace(line[0]) {
      IndentIsBlank(line[1..]);
    }
  }

  /** Blanks, then a character that opens code. */
  lemma {:induction false} CodeBehindBlanks(t: string, k: nat)
    requires k < |t| && (forall i :: 0 <= i < k ==> IsWhitespace(t[i])) && t[k] == '@'
    ensures CodeAt(t, k) && Inert(t, k)
    decreases k
  {
    if k > 0 {
      assert IsWhitespace(t[0]);
      CodeBehindBlanks(t[1..], k - 1);
      forall i | 0 <= i < k ensures !IsQuote(t[i]) && t[i] != '\\' {
        assert IsWhitespace(t[i]);
      }
    }
  }

  /** A decorator line's decorator is code if and only if no literal is open in front of it. */
  lemma {:induction false} DecoratorIsCodeExactly(ls: seq<string>, at: nat)
    requires at < |ls| && IsUi(ls[at])
    ensures DecoratorIsCode(ls, at) <==> ClosedBefore(ls, at)
  {
    var k := TextBehind(ls, at);
    if at == 0 {
      FirstIsCode(Unlines(ls), Unlines(ls[..0]), Unlines(ls[0..]), k);
    } else {
      LinesEndInNewline(ls[..at]);
      LaterIsCode(ls, at, Unlines(ls[..at]), Unlines(ls[at..]), k);
    }
  }

  lemma {:induction false} FirstIsCode(whole: string, before: string, t: string, k: nat)
    requires whole == before + t && before == ""
    requires k < |t| && (forall i :: 0 <= i < k ==> IsWhitespace(t[i])) && t[k] == '@'
    ensures CodeAt(whole, |before| + k)
  {
    assert whole == t;
    CodeBehindBlanks(t, k);
  }

  lemma {:induction false} LaterIsCode(ls: seq<string>, at: nat, before: string, t: string, k: nat)
    requires 0 < at < |ls| && before == Unlines(ls[..at]) && Unlines(ls) == before + t && before != ""
    requires before == before[..|before| - 1] + "\n" && k == Indent(ls[at])
    requires k < |t| && (forall i :: 0 <= i < k ==> IsWhitespace(t[i])) && t[k] == '@'
    ensures DecoratorIsCode(ls, at) <==> ClosedBefore(ls, at)
  {
    InertCodeExactly(Unlines(ls), before[..|before| - 1], before, t, k);
  }

  lemma {:induction false} InertCodeExactly(whole: string, s: string, before: string, t: string, k: nat)
    requires whole == before + t && before == s + "\n"
    requires k < |t| && (forall i :: 0 <= i < k ==> IsWhitespace(t[i])) && t[k] == '@'
    ensures CodeAt(whole, |before| + k) <==> EndsInCode(s)
  {
    CodeBehindBlanks(t, k);
    assert whole == s + ("\n" + t);
    if EndsInCode(s) {
      CodeBehindText(s, t, k);
    } else {
      OpenLiteralCovers(s, t, k);
    }
  }

  lemma {:induction false} TextBehind(ls: seq<string>, at: nat) returns (k: nat)
    requires at < |ls| && IsUi(ls[at])
    ensures k == Indent(ls[at])
    ensures Unlines(ls) == Unlines(ls[..at]) + Unlines(ls[at..])
    ensures k < |Unlines(ls[at..])| && Unlines(ls[at..])[k] == '@'
    ensures forall i :: 0 <= i < k ==> IsWhitespace(Unlines(ls[at..])[i])
  {
    k := Indent(ls[at]);
    assert ls[..at] + ls[at..] == ls;
    UnlinesAppend(ls[..at], ls[at..]);
    UiBehindBlanks(ls[at], "\n" + Unlines(ls[at..][1..]));
    assert Unlines(ls[at..]) == ls[at] + ("\n" + Unlines(ls[at..][1..]));
  }

  lemma {:induction false} UiBehindBlanks(line: string, more: string)
    requires IsUi(line)
    ensures Indent(line) < |line + more| && (line + more)[Indent(line)] == '@'
    ensures forall i :: 0 <= i < Indent(line) ==> IsWhitespace((line + more)[i])
  {
    IndentIsBlank(line);
    assert UI[0] == '@' && TrimStart(line)[0] == UI[0];
    assert line[Indent(line)..][0] == TrimStart(line)[0];
  }

  // ----- regions against the text -----

  ghost predicate CountsForItself(line: string) {
    forall more :: TokenBalance(line + ("\n" + more)) == Balance(line) + TokenBalance(more)
  }

  /** The weights of lines add up to the balance of their text. */
  lemma {:induction false} SumIsTextBalance(ls: seq<string>, a: nat, b: nat)
    requires a <= b <= |ls| && forall i :: a <= i < b ==> '\n' !in ls[i] && EndsInCode(ls[i])
    ensures Sum(Marks(ls), a, b) == TokenBalance(Unlines(ls[a..b]))
    decreases b - a
  {
    if a < b {
      SumIsTextBalance(ls, a + 1, b);
      LinesCons(ls, a, b);
      ClosedLineCounts(ls[a], Unlines(ls[a + 1..b]));
      BalanceIsTokenBalance(ls[a]);
    }
  }

  lemma {:induction false} LinesCons(ls: seq<string>, a: nat, b: nat)
    requires a < b <= |ls|
    ensures Unlines(ls[a..b]) == ls[a] + ("\n" + Unlines(ls[a + 1..b]))
  {
    assert ls[a..b][1..] == ls[a + 1..b];
  }

  /** A region against the lexer of the whole text. Its decorator is code, and each of its lines
      counts for itself whatever follows, if and only if no literal is open in front of it and
      none runs past the end of one of its lines. */
  lemma {:induction false} RegionsAgreeWithText(ls: seq<string>, r: Region)
    requires NewlineFree(ls) && r in DecoratorRegions(ls)
    ensures r.start < r.end <= |ls| && IsUi(ls[r.start])
    ensures DecoratorIsCode(ls, r.start) <==> ClosedBefore(ls, r.start)
    ensures Afresh(Unlines(ls[..r.start])) <==> ClosedBefore(ls, r.start)
    ensures forall i :: r.start <= i < r.end ==> (CountsForItself(ls[i]) <==> EndsInCode(ls[i]))
  {
    assert IsRegion(Marks(ls), r);
    DecoratorIsCodeExactly(ls, r.start);
    AfreshBehindLinesExactly(ls, r.start);
    forall i | r.start <= i < r.end ensures CountsForItself(ls[i]) <==> EndsInCode(ls[i]) {
      LineCountsForItselfExactly(ls[i]);
    }
  }

  /** A region whose own lines leave no literal open is the shortest run of lines whose text
      balances, or the rest of the file, whatever stands elsewhere in it. */
  lemma {:induction false} RegionIsShortestBalancedText(ls: seq<string>, r: Region)
    requires NewlineFree(ls) && r in DecoratorRegions(ls)
    requires forall i :: r.start <= i < r.end && i < |ls| ==> EndsInCode(ls[i])
    ensures r.start < r.end <= |ls|
    ensures forall j :: r.start < j < r.end ==> TokenBalance(Unlines(ls[r.start..j])) > 0
    ensures r.end == |ls| || TokenBalance(Unlines(ls[r.start..r.end])) <= 0
  {
    assert IsRegion(Marks(ls), r);
    forall j | r.start < j <= r.end ensures Sum(Marks(ls), r.start, j) == TokenBalance(Unlines(ls[r.start..j])) {
      SumIsTextBalance(ls, r.start, j);
    }
  }

  /** A line inside a literal that looks like a decorator is blanked all the same, so the
      value of the string changes. */
  lemma {:induction false} LiteralLineIsBlanked(ls: seq<string>, at: nat)
    requires at < |ls| && IsUi(ls[at]) && !ClosedBefore(ls, at)
    ensures !DecoratorIsCode(ls, at) && Strip(ls)[at] == "" && ls[at] != ""
  {
    DecoratorIsCodeExactly(ls, at);
    StripPreservesLines(ls);
  }

  lemma {:induction false} DocstringLineIsBlanked(rest: seq<string>)
    ensures
      var ls := ["x = \"\"\"", "@ui(a)"] + rest;
      !DecoratorIsCode(ls, 1) && Strip(ls)[1] == ""
  {
    var ls := ["x = \"\"\"", "@ui(a)"] + rest;
    assert ls[..1] == ["x = \"\"\""] && ls[..1][1..] == [];
    assert Unlines(ls[..1]) == "x = \"\"\"" + "\n" + "";
    assert Unlines(ls[..1])[..|Unlines(ls[..1])| - 1] == "x = \"\"\"";
    OpenTripleIsOpen();
    assert "@ui(a)"[..4] == UI && !IsWhitespace("@ui(a)"[0]);
    assert TrimStart("@ui(a)") == "@ui(a)";
    LiteralLineIsBlanked(ls, 1);
  }

  lemma {:induction false} OpenTripleIsOpen()
    ensures !EndsInCode("x = \"\"\"")
  {
    var t := Triple('"') + "";
    assert StartsWith(t, Triple('"')) && t[3..] == "" && !TokenCloses(t) && !EndsInCode(t);
    PlainCharacter(' ', t);
    PlainCharacter('=', [' '] + t);
    PlainCharacter(' ', ['='] + ([' '] + t));
    PlainCharacter('x', [' '] + (['='] + ([' '] + t)));
    assert "x = \"\"\"" == ['x'] + ([' '] + (['='] + ([' '] + t)));
  }

  lemma {:induction false} PlainCharacter(c: char, s: string)
    requires c != '#' && !IsQuote(c)
    ensures EndsInCode([c] + s) <==> EndsInCode(s)
  {
    assert ([c] + s)[1..] == s;
  }

  // ----- a string across lines -----

  const FIRST := "@ui(\"\"\"a"
  const SECOND := "b\"\"\")"

  lemma {:induction false} OneCharacter(c: char, s: string)
    requires c != '#' && !IsQuote(c)
    ensures TokenBalance([c] + s) == Delta(c) + TokenBalance(s)
  {
    assert ([c] + s)[1..] == s;
  }

  lemma {:induction false} OpenTripleWeighsNothing(q: char, body: string)
    requires IsQuote(q) && TripleTail(body, q) == |body|
    ensures TokenBalance(Triple(q) + body) == 0
  {
    var s := Triple(q) + body;
    assert StartsWith(s, Triple(q)) && s[3..] == body && s[|s|..] == "";
  }

  lemma {:induction false} UiWeighsOne(t: string)
    ensures TokenBalance(['@'] + (['u'] + (['i'] + (['('] + t)))) == 1 + TokenBalance(t)
  {
    OneCharacter('(', t);
    OneCharacter('i', ['('] + t);
    OneCharacter('u', ['i'] + (['('] + t));
    OneCharacter('@', ['u'] + (['i'] + (['('] + t)));
  }

  lemma {:induction false} FirstIsSpelled()
    ensures FIRST == ['@'] + (['u'] + (['i'] + (['('] + (Triple('"') + "a")))) && IsUi(FIRST)
  {
    assert FIRST[..4] == UI;
  }

  lemma {:induction false} FirstWeighsOne()
    ensures TokenBalance(FIRST) == 1 && IsUi(FIRST)
  {
    FirstIsSpelled();
    UiWeighsOne(Triple('"') + "a");
    assert "a"[1..] == "" && TripleTail("", '"') == 0 && TripleTail("a", '"') == 1;
    OpenTripleWeighsNothing('"', "a");
  }

  lemma {:induction false} SecondWeighsNothing()
    ensures TokenBalance(SECOND) == 0
  {
    assert ")"[1..] == "" && TripleTail("", '"') == 0 && TripleTail(")", '"') == 1;
    OpenTripleWeighsNothing('"', ")");
    OneCharacter('b', Triple('"') + ")");
    assert SECOND == ['b'] + (Triple('"') + ")");
  }

  lemma {:induction false} RunsOn(ms: seq<Mark>)
    requires |ms| >= 3 && ms[0] == Mark(true, 1) && ms[1].weight == 0
    ensures Covered(From(ms, 0), 2)
  {
    assert RegionEnd(ms, 0, 0) == RegionEnd(ms, 1, 1) == RegionEnd(ms, 2, 1) > 2;
    CoveredCons(Region(0, RegionEnd(ms, 0, 0)), From(ms, RegionEnd(ms, 0, 0)), 2);
  }

  /** A decorator whose argument is a triple-quoted string across two lines never balances
      line by line: whatever line comes next is blanked with it. */
  lemma {:induction false} MultilineStringBlanksOn(ls: seq<string>)
    requires |ls| >= 3 && ls[0] == FIRST && ls[1] == SECOND
    ensures IsUi(ls[0]) && Strip(ls)[2] == ""
  {
    FirstWeighsOne();
    SecondWeighsNothing();
    BalanceIsTokenBalance(FIRST);
    BalanceIsTokenBalance(SECOND);
    RunsOn(Marks(ls));
    FromIsPartition(Marks(ls), 0);
    assert DecoratorRegions(ls) == From(Marks(ls), 0);
  }
}
