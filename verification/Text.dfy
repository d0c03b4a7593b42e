/** String primitives the source takes from its standard library, over CR-free text. */
module Text {

  datatype Option<+T> = None | Some(value: T)

  datatype Result<+T, +E> = Ok(value: T) | Err(error: E)

  /** Unicode White_Space, the class `trim_start` and `split_whitespace` use. */
  predicate IsWhitespace(c: char) {
    || '\U{0009}' <= c <= '\U{000D}'
    || c == ' ' || c == '\U{0085}' || c == '\U{00A0}' || c == '\U{1680}'
    || '\U{2000}' <= c <= '\U{200A}'
    || c == '\U{2028}' || c == '\U{2029}' || c == '\U{202F}' || c == '\U{205F}' || c == '\U{3000}'
  }

  predicate IsAsciiAlphanumeric(c: char) {
    'a' <= c <= 'z' || 'A' <= c <= 'Z' || '0' <= c <= '9'
  }

  predicate StartsWith(s: string, p: string) { p <= s }

  predicate EndsWith(s: string, p: string) {
    |p| <= |s| && s[|s| - |p|..] == p
  }

  predicate OccursAt(s: string, p: string, i: nat) {
    i + |p| <= |s| && s[i..i + |p|] == p
  }

  predicate Contains(s: string, p: string) {
    exists i :: 0 <= i <= |s| && OccursAt(s, p, i)
  }

  function TrimStart(s: string): string {
    if s != [] && IsWhitespace(s[0]) then TrimStart(s[1..]) else s
  }

  function TrimEnd(s: string): string {
    if s != [] && IsWhitespace(s[|s| - 1]) then TrimEnd(s[..|s| - 1]) else s
  }

  function Trim(s: string): string { TrimEnd(TrimStart(s)) }

  /** `s.trim().is_empty()`. */
  predicate IsBlank(s: string) { TrimStart(s) == "" }

  /** Offset of the first `c`, or the length when there is none. */
  function IndexOf(s: string, c: char): (i: nat)
    ensures i <= |s|
    ensures forall k :: 0 <= k < i ==> s[k] != c
    ensures i < |s| ==> s[i] == c
  {
    if s == [] || s[0] == c then 0 else 1 + IndexOf(s[1..], c)
  }

  lemma {:induction false} IndexOfUnique(s: string, c: char, i: nat)
    requires i <= |s| && (forall k :: 0 <= k < i ==> s[k] != c) && (i < |s| ==> s[i] == c)
    ensures IndexOf(s, c) == i
  {
  }

  /** `source.lines()`: a trailing newline does not open another line. */
  function Lines(s: string): (ls: seq<string>)
    ensures NewlineFree(ls)
    decreases |s|
  {
    if s == [] then []
    else
      var i := IndexOf(s, '\n');
      if i == |s| then [s] else [s[..i]] + Lines(s[i + 1..])
  }

  /** Every line followed by a newline, the shape both passes write. */
  function Unlines(ls: seq<string>): string {
    if ls == [] then "" else ls[0] + "\n" + Unlines(ls[1..])
  }

  ghost predicate NewlineFree(ls: seq<string>) {
    forall i :: 0 <= i < |ls| ==> '\n' !in ls[i]
  }

  lemma {:induction false} LinesOfUnlines(ls: seq<string>)
    requires NewlineFree(ls)
    ensures Lines(Unlines(ls)) == ls
  {
    if ls != [] {
      var s := Unlines(ls);
      var n := |ls[0]|;
      assert s == ls[0] + ("\n" + Unlines(ls[1..]));
      assert s[n] == '\n' && s[..n] == ls[0] && s[n + 1..] == Unlines(ls[1..]);
      assert forall k :: 0 <= k < n ==> s[k] == ls[0][k];
      IndexOfUnique(s, '\n', n);
      LinesOfUnlines(ls[1..]);
    }
  }

  lemma {:induction false} UnlinesAppend(a: seq<string>, b: seq<string>)
    ensures Unlines(a + b) == Unlines(a) + Unlines(b)
  {
    if a == [] {
      assert a + b == b;
    } else {
      assert (a + b)[1..] == a[1..] + b;
      UnlinesAppend(a[1..], b);
    }
  }

  lemma {:induction false} UnlinesSnoc(a: seq<string>, l: string)
    ensures Unlines(a + [l]) == Unlines(a) + l + "\n"
  {
    UnlinesAppend(a, [l]);
    assert Unlines([l]) == l + "\n" + Unlines([l][1..]) == l + "\n";
  }

  lemma {:induction false} SliceOfSlice(s: string, a: nat, b: nat, k: nat, n: nat)
    requires a <= b <= |s| && k + n <= b - a
    ensures s[a..b][k..k + n] == s[a + k..a + k + n]
  {
    var x, y := s[a..b][k..k + n], s[a + k..a + k + n];
    assert |x| == |y| && forall m :: 0 <= m < n ==> x[m] == y[m];
  }

  /** A line of a text that lacks `p` lacks `p`. */
  lemma {:induction false} LinesLackSubstring(s: string, p: string, l: string)
    requires !Contains(s, p) && l in Lines(s)
    ensures !Contains(l, p)
    decreases |s|
  {
    var i := IndexOf(s, '\n');
    if l == s[..i] {
      forall k | 0 <= k && k + |p| <= |l| ensures OccursAt(l, p, k) == OccursAt(s, p, k) {
        SliceOfSlice(s, 0, i, k, |p|);
      }
    } else {
      var t := s[i + 1..];
      forall k | 0 <= k && k + |p| <= |t| ensures OccursAt(t, p, k) == OccursAt(s, p, i + 1 + k) {
        SliceOfSlice(s, i + 1, |s|, k, |p|);
      }
      LinesLackSubstring(t, p, l);
    }
  }

  lemma {:induction false} TrimStartIsSuffix(s: string)
    ensures |TrimStart(s)| <= |s| && TrimStart(s) == s[|s| - |TrimStart(s)|..]
    ensures TrimStart(s) != [] ==> !IsWhitespace(TrimStart(s)[0])
  {
    if s != [] && IsWhitespace(s[0]) { TrimStartIsSuffix(s[1..]); }
  }

  predicate AllSpace(s: string) { forall i :: 0 <= i < |s| ==> IsWhitespace(s[i]) }

  /** The text is `word` and more, behind nothing but whitespace. */
  ghost predicate Leads(s: string, word: string) {
    exists space, rest :: AllSpace(space) && s == space + word + rest
  }

  lemma {:induction false} TrimStartOfSpace(space: string, t: string)
    requires AllSpace(space) && (t == "" || !IsWhitespace(t[0]))
    ensures TrimStart(space + t) == t
  {
    if space == "" {
      assert space + t == t;
    } else {
      assert (space + t)[1..] == space[1..] + t;
      TrimStartOfSpace(space[1..], t);
    }
  }

  lemma {:induction false} TrimStartSplits(s: string) returns (space: string)
    ensures AllSpace(space) && s == space + TrimStart(s)
  {
    if s != [] && IsWhitespace(s[0]) {
      var rest := TrimStartSplits(s[1..]);
      space := [s[0]] + rest;
    } else {
      space := "";
    }
  }

  /** Trimming finds what leads a line. */
  lemma {:induction false} LeadsExactly(s: string, word: string)
    requires word != "" && !IsWhitespace(word[0])
    ensures StartsWith(TrimStart(s), word) <==> Leads(s, word)
  {
    if StartsWith(TrimStart(s), word) {
      var space := TrimStartSplits(s);
      assert s == space + word + TrimStart(s)[|word|..];
    }
    if space, rest :| AllSpace(space) && s == space + word + rest {
      assert s == space + (word + rest);
      TrimStartOfSpace(space, word + rest);
    }
  }

  lemma {:induction false} UnlinesEndsWithNewline(ls: seq<string>)
    ensures EndsWith(Unlines(ls), "\n") == (ls != [])
  {
    if ls != [] {
      var init, last := ls[..|ls| - 1], ls[|ls| - 1];
      assert ls == init + [last];
      UnlinesSnoc(init, last);
    }
  }

  lemma {:induction false} LastTwo(u: string, last: string)
    requires '\n' !in last && (u != "" ==> u[|u| - 1] == '\n')
    ensures EndsWith(u + last + "\n", "\n\n") == (last == "" && u != "")
  {
    var t := u + last + "\n";
    if |t| >= 2 {
      assert t[|t| - 2..] == [t[|t| - 2], '\n'];
      assert last != "" ==> t[|t| - 2] == last[|last| - 1];
      assert last == "" ==> t[|t| - 2] == u[|u| - 1];
    }
  }

  /** A text of lines ends in an empty line, with something before it. */
  lemma {:induction false} UnlinesEndsBlank(ls: seq<string>)
    requires NewlineFree(ls)
    ensures EndsWith(Unlines(ls), "\n\n") == (|ls| >= 2 && ls[|ls| - 1] == "")
  {
    if ls != [] {
      var init, last := ls[..|ls| - 1], ls[|ls| - 1];
      assert ls == init + [last];
      UnlinesSnoc(init, last);
      UnlinesEndsWithNewline(init);
      var u := Unlines(init);
      assert u != "" ==> u[|u| - 1..] == [u[|u| - 1]];
      LastTwo(u, last);
      assert u != "" <==> init != [];
    }
  }
}
