/** `contains_module_reference`: does KCL text mention `<identifier>.` as code? */
module ModuleReference {
  import opened Text
  import opened Lexer

  predicate IsIdentifierChar(c: char) { IsAsciiAlphanumeric(c) || c == '_' }

  /** A reference starts at `k`: a code position, not in the middle of an identifier, where
      the identifier stands followed by a dot. */
  predicate ReferenceAt(s: string, identifier: string, k: nat) {
    && CodeAt(s, k)
    && OccursAt(s, identifier, k)
    && (k == 0 || (k <= |s| && !IsIdentifierChar(s[k - 1])))
    && k + |identifier| < |s| && s[k + |identifier|] == '.'
  }

  predicate References(s: string, identifier: string) {
    exists k :: 0 <= k < |s| && ReferenceAt(s, identifier, k)
  }

  /** Index just past the string literal that opens at `start`. */
  method SkipStringLiteral(source: string, start: nat, quote: char) returns (end: nat)
    requires start < |source| && source[start] == quote && IsQuote(quote)
    ensures end == start + TokenLength(source[start..])
    ensures start < end <= |source|
  {
    var rest := source[start..];
    if StartsWith(rest, Triple(quote)) {
      return start + 3 + TripleTail(rest[3..], quote);
    }
    var body := rest[1..];
    var escaped := false;
    var offset := 0;
    while offset < |body|
      invariant offset <= |body|
      invariant StringTail(body, quote) == offset +
        if !escaped then StringTail(body[offset..], quote)
        else if offset == |body| then 0 else 1 + StringTail(body[offset + 1..], quote)
    {
      var ch := body[offset];
      assert body[offset..][1..] == body[offset + 1..];
      assert offset + 1 < |body| ==> body[offset..][2..] == body[offset + 2..];
      if escaped {
        escaped := false;
      } else if ch == '\\' {
        escaped := true;
      } else if ch == quote {
        return start + 1 + offset + 1;
      }
      offset := offset + 1;
    }
    end := |source|;
  }

  /** Lexing `source` from `index` gives the classification of the whole text. */
  ghost predicate AtBoundary(source: string, index: nat)
    requires index <= |source|
  {
    forall k: nat :: index <= k ==> CodeAt(source, k) == CodeAt(source[index..], k - index)
  }

  lemma {:induction false} NextBoundary(source: string, index: nat, next: nat)
    requires index < |source| && AtBoundary(source, index)
    requires next == index + TokenLength(source[index..])
    ensures AtBoundary(source, next)
    ensures forall k :: index <= k < next ==> CodeAt(source, k) == (k == index && OpensCode(source[index..]))
  {
    var rest := source[index..];
    forall k: nat | next <= k ensures CodeAt(source, k) == CodeAt(source[next..], k - next) {
      assert rest[next - index..] == source[next..];
    }
  }

  method ContainsModuleReference(source: string, identifier: string) returns (found: bool)
    ensures found <==> References(source, identifier)
  {
    var index := 0;
    while index < |source|
      invariant index <= |source|
      invariant AtBoundary(source, index)
      invariant forall k :: 0 <= k < index ==> !ReferenceAt(source, identifier, k)
    {
      var rest := source[index..];
      var next;
      if rest[0] == '#' {
        next := index + IndexOf(rest, '\n');
      } else if IsQuote(rest[0]) {
        next := SkipStringLiteral(source, index, rest[0]);
      } else {
        if StartsWith(rest, identifier) {
          assert source[index..index + |identifier|] == rest[..|identifier|];
          var after := index + |identifier|;
          if (index == 0 || !IsIdentifierChar(source[index - 1])) && after < |source| && source[after] == '.' {
            assert ReferenceAt(source, identifier, index);
            return true;
          }
        } else {
          NoOccurrence(source, identifier, index);
        }
        next := index + 1;
      }
      NextBoundary(source, index, next);
      index := next;
    }
    found := false;
  }

  lemma {:induction false} NoOccurrence(s: string, identifier: string, i: nat)
    requires i <= |s| && !StartsWith(s[i..], identifier)
    ensures !OccursAt(s, identifier, i)
  {
    if i + |identifier| <= |s| {
      assert s[i..i + |identifier|] == s[i..][..|identifier|];
    }
  }

  /** Blank lines in front of a text hold no reference and hide none. */
  lemma {:induction false} ReferencesAfterNewline(s: string, identifier: string)
    requires '\n' !in identifier
    ensures References("\n" + s, identifier) == References(s, identifier)
  {
    var t := "\n" + s;
    forall k: nat | k < |s| ensures ReferenceAt(t, identifier, k + 1) == ReferenceAt(s, identifier, k) {
      CodeAtAfterNewline(s, k);
      if k + |identifier| <= |s| {
        assert t[k + 1..k + 1 + |identifier|] == s[k..k + |identifier|];
      }
      assert t[k] == if k == 0 then '\n' else s[k - 1];
    }
    if References(s, identifier) {
      var k :| 0 <= k < |s| && ReferenceAt(s, identifier, k);
      assert ReferenceAt(t, identifier, k + 1);
    }
    if References(t, identifier) {
      var k :| 0 <= k < |t| && ReferenceAt(t, identifier, k);
      assert ReferenceAt(s, identifier, k - 1);
    }
  }
}
