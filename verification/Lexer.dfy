/** The reference lexer of KCL text: which characters are code, and which lie in a
    `#` comment or in a single- or triple-quoted string. Both hand-written scanners of
    the source (`paren_balance` and `contains_module_reference`) are proved against it. */
module Lexer {
  import opened Text

  predicate IsQuote(c: char) { c == '"' || c == '\'' }

  function Triple(q: char): string { [q, q, q] }

  /** Length of the body and closing quote of a single-quoted string whose body `s` is. */
  function StringTail(s: string, q: char): (n: nat)
    ensures n <= |s|
  {
    if s == [] then 0
    else if s[0] == '\\' then if |s| == 1 then 1 else 2 + StringTail(s[2..], q)
    else if s[0] == q then 1
    else 1 + StringTail(s[1..], q)
  }

  /** The same for a triple-quoted string, in which nothing escapes. */
  function TripleTail(s: string, q: char): (n: nat)
    ensures n <= |s|
  {
    if s == [] then 0
    else if StartsWith(s, Triple(q)) then 3
    else 1 + TripleTail(s[1..], q)
  }

  /** Length of the token that starts a non-empty text: a whole comment (its newline
      excluded), a whole string literal, or one character of code. */
  function TokenLength(s: string): (n: nat)
    requires s != []
    ensures 0 < n <= |s|
  {
    if s[0] == '#' then
      IndexOf(s, '\n')
    else if IsQuote(s[0]) then
      if StartsWith(s, Triple(s[0])) then 3 + TripleTail(s[3..], s[0])
      else 1 + StringTail(s[1..], s[0])
    else 1
  }

  predicate OpensCode(s: string)
    requires s != []
  {
    s[0] != '#' && !IsQuote(s[0])
  }

  /** Character `k` of `s` is code. */
  predicate CodeAt(s: string, k: nat)
    decreases |s|
  {
    s != [] &&
    var n := TokenLength(s);
    if k < n then k == 0 && OpensCode(s) else CodeAt(s[n..], k - n)
  }

  lemma {:induction false} CodeAtBounded(s: string, k: nat)
    requires CodeAt(s, k)
    ensures k < |s| && s[k] != '#' && !IsQuote(s[k])
    decreases |s|
  {
    var n := TokenLength(s);
    if k >= n { CodeAtBounded(s[n..], k - n); }
  }

  /** A leading newline shifts the classification by one place. */
  lemma {:induction false} CodeAtAfterNewline(s: string, k: nat)
    ensures CodeAt("\n" + s, k + 1) == CodeAt(s, k)
  {
    assert ("\n" + s)[1..] == s;
  }
}
