/** What the reference lexer calls code, piece by piece, in terms of the text itself. */
module LexerProperties {
  import opened Text
  import opened Lexer

  /** No comment and no string starts here. */
  predicate IsPlain(s: string) { '#' !in s && '"' !in s && '\'' !in s }

  /** Plain text is code. */
  lemma {:induction false} PlainIsCode(s: string, more: string, k: nat)
    requires IsPlain(s)
    ensures CodeAt(s + more, k) <==> if k < |s| then true else CodeAt(more, k - |s|)
  {
    if s == "" {
      assert s + more == more;
    } else {
      assert (s + more)[1..] == s[1..] + more;
      if k > 0 { PlainIsCode(s[1..], more, k - 1); }
    }
  }

  /** A comment is none, up to the end of its line. */
  lemma {:induction false} CommentIsNoCode(comment: string, more: string, k: nat)
    requires '\n' !in comment && (more == "" || more[0] == '\n')
    ensures CodeAt("#" + comment + more, k) <==> |comment| < k && CodeAt(more, k - |comment| - 1)
  {
    var s := "#" + comment + more;
    assert forall i :: 1 <= i <= |comment| ==> s[i] == comment[i - 1];
    assert forall i :: 0 <= i <= |comment| ==> s[i] != '\n';
    IndexOfUnique(s, '\n', |comment| + 1);
    assert s[|comment| + 1..] == more;
  }

  /** A body of a string in one kind of quotes: these stand in it, as the backslash does, only
      behind a backslash. */
  predicate IsBody(s: string, quote: char) {
    if s == "" then true
    else if s[0] == '\\' then |s| > 1 && IsBody(s[2..], quote)
    else s[0] != quote && IsBody(s[1..], quote)
  }

  lemma {:induction false} BodyTail(body: string, quote: char, more: string)
    requires IsBody(body, quote) && quote != '\\'
    ensures StringTail(body + ([quote] + more), quote) == |body| + 1
    ensures StringTail(body, quote) == |body|
    decreases |body|
  {
    var s := body + ([quote] + more);
    if body == "" {
      assert s[0] == quote;
    } else if body[0] == '\\' {
      assert s[2..] == body[2..] + ([quote] + more);
      BodyTail(body[2..], quote, more);
    } else {
      assert s[1..] == body[1..] + ([quote] + more);
      BodyTail(body[1..], quote, more);
    }
  }

  lemma {:induction false} BodyStartsNoTriple(body: string, quote: char, more: string)
    requires IsBody(body, quote) && quote != '\\' && (body != "" || more == "" || more[0] != quote)
    ensures !StartsWith([quote] + (body + ([quote] + more)), Triple(quote))
    ensures !StartsWith([quote] + body, Triple(quote))
  {
    var s := [quote] + (body + ([quote] + more));
    assert Triple(quote)[1] == quote && Triple(quote)[2] == quote;
    if body != "" {
      assert s[1] == body[0] && ([quote] + body)[1] == body[0];
    } else if more != "" {
      assert s[2] == more[0];
    }
  }

  /** A string is no code, and what follows its closing quote is lexed as if it stood alone. */
  lemma {:induction false} StringIsNoCode(quote: char, body: string, more: string, k: nat)
    requires (quote == '"' || quote == '\'') && IsBody(body, quote)
    requires body != "" || more == "" || more[0] != quote
    ensures CodeAt([quote] + (body + ([quote] + more)), k) <==> k >= |body| + 2 && CodeAt(more, k - |body| - 2)
  {
    var s := [quote] + (body + ([quote] + more));
    assert s[1..] == body + ([quote] + more);
    BodyStartsNoTriple(body, quote, more);
    BodyTail(body, quote, more);
    assert TokenLength(s) == |body| + 2;
    assert s[|body| + 2..] == more;
  }

  /** Left open, it covers the rest of the text. */
  lemma {:induction false} OpenStringIsNoCode(quote: char, body: string, k: nat)
    requires (quote == '"' || quote == '\'') && IsBody(body, quote)
    ensures !CodeAt([quote] + body, k)
  {
    var s := [quote] + body;
    assert s[1..] == body;
    BodyStartsNoTriple(body, quote, "");
    BodyTail(body, quote, "");
    assert TokenLength(s) == |s| && s[|s|..] == "";
  }

  /** Three quotes in a row occur in the text for the first time at its end. */
  predicate IsTripleBody(body: string, quote: char) {
    forall i :: 0 <= i < |body| ==> !StartsWith((body + [quote, quote, quote])[i..], [quote, quote, quote])
  }

  lemma {:induction false} TripleBodyTail(body: string, quote: char, more: string)
    requires IsTripleBody(body, quote)
    ensures TripleTail(body + ([quote, quote, quote] + more), quote) == |body| + 3
    decreases |body|
  {
    var end := [quote, quote, quote];
    var s := body + (end + more);
    if body == "" {
      assert s == end + more;
    } else {
      assert s[1..] == body[1..] + (end + more);
      assert !StartsWith((body + end)[0..], end);
      assert s[..3] == (body + end)[0..][..3];
      forall i | 0 <= i < |body[1..]| ensures !StartsWith((body[1..] + end)[i..], end) {
        assert (body[1..] + end)[i..] == (body + end)[i + 1..];
      }
      TripleBodyTail(body[1..], quote, more);
    }
  }

  /** In triple quotes nothing escapes, and single quotes are text. */
  lemma {:induction false} TripleIsNoCode(quote: char, body: string, more: string, k: nat)
    requires (quote == '"' || quote == '\'') && IsTripleBody(body, quote)
    ensures CodeAt([quote, quote, quote] + (body + ([quote, quote, quote] + more)), k) <==>
      k >= |body| + 6 && CodeAt(more, k - |body| - 6)
  {
    var s := [quote, quote, quote] + (body + ([quote, quote, quote] + more));
    assert s[3..] == body + ([quote, quote, quote] + more) && StartsWith(s, Triple(quote));
    TripleBodyTail(body, quote, more);
    assert TokenLength(s) == |body| + 6;
    assert s[|body| + 6..] == more;
  }
}
