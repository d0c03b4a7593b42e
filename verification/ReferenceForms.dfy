/** References to a module in terms of the text around them. */
module ReferenceForms {
  import opened Text
  import opened Lexer
  import opened LexerProperties
  import opened ModuleReference

  /** Letters, digits and the underscore. */
  predicate IsWordChar(c: char) { 'a' <= c <= 'z' || 'A' <= c <= 'Z' || '0' <= c <= '9' || c == '_' }

  /** The text is `pre`, the identifier, a dot and `post`, and no word runs on into the identifier. */
  predicate Refers(s: string, identifier: string, pre: string, post: string) {
    s == pre + identifier + "." + post && (pre == "" || !IsWordChar(pre[|pre| - 1]))
  }

  lemma {:induction false} ReferenceSplits(s: string, identifier: string, k: nat)
    requires ReferenceAt(s, identifier, k)
    ensures Refers(s, identifier, s[..k], s[k + |identifier| + 1..])
  {
    assert s == s[..k] + s[k..k + |identifier|] + [s[k + |identifier|]] + s[k + |identifier| + 1..];
  }

  lemma {:induction false} SplitRefers(s: string, identifier: string, pre: string, post: string)
    requires IsPlain(s) && Refers(s, identifier, pre, post)
    ensures |pre| < |s| && ReferenceAt(s, identifier, |pre|)
  {
    var k := |pre|;
    PlainIsCode(s, "", k);
    assert s + "" == s;
    assert s[k..k + |identifier|] == identifier && s[k + |identifier|] == '.';
  }

  /** In plain text every such place refers to the module, and nothing else does. */
  lemma {:induction false} PlainTextRefersExactly(s: string, identifier: string)
    requires IsPlain(s)
    ensures References(s, identifier) <==> exists pre, post :: Refers(s, identifier, pre, post)
  {
    if k :| 0 <= k < |s| && ReferenceAt(s, identifier, k) {
      ReferenceSplits(s, identifier, k);
    }
    if pre, post :| Refers(s, identifier, pre, post) {
      SplitRefers(s, identifier, pre, post);
    }
  }

  lemma {:induction false} ReferenceInFront(s: string, t: string, identifier: string, k: nat)
    requires IsPlain(s) && k + |identifier| < |s|
    ensures ReferenceAt(s + t, identifier, k) <==> ReferenceAt(s, identifier, k)
  {
    PlainIsCode(s, t, k);
    PlainIsCode(s, "", k);
    assert s + "" == s;
    assert (s + t)[k..k + |identifier|] == s[k..k + |identifier|];
  }

  lemma {:induction false} NoCodeInComment(s: string, comment: string, k: nat)
    requires IsPlain(s) && '\n' !in comment && k >= |s|
    ensures !CodeAt(s + ("#" + comment), k)
  {
    PlainIsCode(s, "#" + comment, k);
    assert "#" + comment + "" == "#" + comment;
    CommentIsNoCode(comment, "", k - |s|);
  }

  lemma {:induction false} CharacterOf(s: string, identifier: string, k: nat, i: nat)
    requires OccursAt(s, identifier, k) && k <= i < k + |identifier|
    ensures s[i] in identifier
  {
    assert identifier[i - k] == s[k..k + |identifier|][i - k] == s[i];
  }

  lemma {:induction false} ReferenceStaysInFront(s: string, comment: string, identifier: string, k: nat)
    requires IsPlain(s) && '\n' !in comment && '#' !in identifier
    requires ReferenceAt(s + ("#" + comment), identifier, k)
    ensures k + |identifier| < |s|
  {
    var t := s + ("#" + comment);
    assert t[|s|] == '#';
    if k >= |s| {
      NoCodeInComment(s, comment, k);
    } else if k + |identifier| > |s| {
      CharacterOf(t, identifier, k, |s|);
    }
  }

  /** What a comment mentions is no reference. */
  lemma {:induction false} CommentsDoNotRefer(s: string, comment: string, identifier: string)
    requires IsPlain(s) && '\n' !in comment && '#' !in identifier
    ensures References(s + ("#" + comment), identifier) <==> References(s, identifier)
  {
    var t := s + ("#" + comment);
    if k :| 0 <= k < |t| && ReferenceAt(t, identifier, k) {
      ReferenceStaysInFront(s, comment, identifier, k);
      ReferenceInFront(s, "#" + comment, identifier, k);
    }
    if k :| 0 <= k < |s| && ReferenceAt(s, identifier, k) {
      ReferenceInFront(s, "#" + comment, identifier, k);
    }
  }

  /** Nor is anything in a string that stands alone. */
  lemma {:induction false} StringsDoNotRefer(quote: char, body: string, identifier: string)
    requires (quote == '"' || quote == '\'') && IsBody(body, quote)
    ensures !References([quote] + (body + ([quote] + "")), identifier)
    ensures !References([quote] + body, identifier)
  {
    forall k: nat ensures !CodeAt([quote] + (body + ([quote] + "")), k) && !CodeAt([quote] + body, k) {
      StringIsNoCode(quote, body, "", k);
      OpenStringIsNoCode(quote, body, k);
    }
  }
}
