/** Decorator lines and paren counts in terms of the text of a line. */
module DecoratorForms {
  import opened Text
  import opened Lexer
  import opened LexerProperties
  import opened Regions
  import opened Decorators

  /** Nothing but whitespace, `@ui(`, and anything. */
  ghost predicate IsDecorator(line: string) {
    exists space, rest :: AllSpace(space) && line == space + "@ui(" + rest
  }

  lemma {:induction false} IsUiExactly(line: string)
    ensures IsUi(line) <==> IsDecorator(line)
  {
    LeadsExactly(line, UI);
    if space, rest :| AllSpace(space) && line == space + "@ui(" + rest {
      assert Leads(line, UI);
    }
    if space, rest :| AllSpace(space) && line == space + UI + rest {
      assert IsDecorator(line);
    }
  }

  /** However far a decorator is indented, none is left behind. */
  lemma {:induction false} NoDecoratorIsLeft(source: string, line: string)
    requires line in Lines(StripText(source))
    ensures !IsDecorator(line)
  {
    LinesOfStripText(source);
    StripPreservesLines(Lines(source));
    IsUiExactly(line);
  }

  /** Every line of the source is there unless a region blanks it; a region starts at a
      decorator, and every decorator starts one or lies in one that started before it. */
  lemma {:induction false} RegionsStartAtDecorators(ls: seq<string>)
    ensures forall r :: r in DecoratorRegions(ls) ==> r.start < r.end <= |ls| && IsDecorator(ls[r.start])
    ensures forall i :: 0 <= i < |ls| && IsDecorator(ls[i]) ==>
      exists r :: r in DecoratorRegions(ls) && (r.start == i || r.start < i < r.end)
  {
    forall r | r in DecoratorRegions(ls) ensures r.start < r.end <= |ls| && IsDecorator(ls[r.start]) {
      assert IsRegion(Marks(ls), r);
      IsUiExactly(ls[r.start]);
    }
    forall i | 0 <= i < |ls| && IsDecorator(ls[i])
      ensures exists r :: r in DecoratorRegions(ls) && (r.start == i || r.start < i < r.end)
    {
      IsUiExactly(ls[i]);
      assert Marks(ls)[i].opens;
      assert Covered(DecoratorRegions(ls), i);
    }
  }

  // ----- what a line weighs -----

  /** Opening minus closing parens, code or not. */
  function Parens(s: string): int { multiset(s)['('] as int - multiset(s)[')'] as int }

  /** Plain text weighs its parens. */
  lemma {:induction false} PlainWeight(s: string, more: string)
    requires IsPlain(s)
    ensures TokenBalance(s + more) == Parens(s) + TokenBalance(more)
  {
    if s == "" {
      assert s + more == more;
    } else {
      assert s == [s[0]] + s[1..];
      assert (s + more)[1..] == s[1..] + more;
      PlainWeight(s[1..], more);
    }
  }

  /** A line without comments and strings weighs its parens, one with a comment what stands in
      front of it. */
  lemma {:induction false} LineWeight(s: string, comment: string)
    requires IsPlain(s) && '\n' !in comment
    ensures Balance(s) == Parens(s) && Balance(s + ("#" + comment)) == Parens(s)
  {
    var t := "#" + comment;
    PlainWeight(s, "");
    assert s + "" == s && TokenBalance("") == 0;
    BalanceIsTokenBalance(s);
    PlainWeight(s, t);
    assert forall i :: 0 <= i < |t| ==> t[i] != '\n';
    IndexOfUnique(t, '\n', |t|);
    assert TokenLength(t) == |t| && t[|t|..] == "";
    BalanceIsTokenBalance(s + t);
  }

  /** Strings weigh nothing, whatever parens and escaped quotes are in them. */
  lemma {:induction false} StringWeight(s: string, quote: char, body: string, more: string)
    requires IsPlain(s) && (quote == '"' || quote == '\'') && IsBody(body, quote)
    requires body != "" || more == "" || more[0] != quote
    ensures Balance(s + ([quote] + (body + ([quote] + more)))) == Parens(s) + Balance(more)
  {
    var t := [quote] + (body + ([quote] + more));
    assert t[1..] == body + ([quote] + more);
    BodyStartsNoTriple(body, quote, more);
    BodyTail(body, quote, more);
    assert TokenLength(t) == |body| + 2 && t[|body| + 2..] == more;
    PlainWeight(s, t);
    BalanceIsTokenBalance(s + t);
    BalanceIsTokenBalance(more);
  }

  /** So do strings in triple quotes that end on the line. */
  lemma {:induction false} TripleWeight(s: string, quote: char, body: string, more: string)
    requires IsPlain(s) && (quote == '"' || quote == '\'') && IsTripleBody(body, quote)
    ensures Balance(s + ([quote, quote, quote] + (body + ([quote, quote, quote] + more)))) == Parens(s) + Balance(more)
  {
    var t := [quote, quote, quote] + (body + ([quote, quote, quote] + more));
    assert t[3..] == body + ([quote, quote, quote] + more) && StartsWith(t, Triple(quote));
    TripleBodyTail(body, quote, more);
    assert TokenLength(t) == |body| + 6 && t[|body| + 6..] == more;
    PlainWeight(s, t);
    BalanceIsTokenBalance(s + t);
    BalanceIsTokenBalance(more);
  }

  /** A region is a single line if and only if the parens of its first line balance, or no line
      follows. */
  lemma {:induction false} BalancedDecoratorStandsAlone(ls: seq<string>, r: Region)
    requires r in DecoratorRegions(ls)
    ensures r.start < |ls|
    ensures r.end == r.start + 1 <==> Balance(ls[r.start]) <= 0 || r.start + 1 == |ls|
  {
    assert IsRegion(Marks(ls), r);
    assert Sum(Marks(ls), r.start + 1, r.start + 1) == 0;
    if r.end > r.start + 1 {
      assert Sum(Marks(ls), r.start, r.start + 1) > 0;
    }
  }
}
