/** `canonicalize_url` and the authority helpers it shares with the credential lookup. */
module Urls {
  import opened Text

  /** What precedes and what follows the first `://`. */
  function SplitScheme(url: string): Option<(string, string)> {
    if |url| < 3 then None
    else if StartsWith(url, "://") then Some(("", url[3..]))
    else match SplitScheme(url[1..])
      case Some((scheme, rest)) => Some(([url[0]] + scheme, rest))
      case None => None
  }

  function StripScheme(url: string): string {
    match SplitScheme(url) case Some((_, rest)) => rest case None => url
  }

  /** What precedes and what follows the last `c`. */
  function SplitLast(s: string, c: char): Option<(string, string)> {
    if s == [] then None
    else if s[|s| - 1] == c then Some((s[..|s| - 1], ""))
    else match SplitLast(s[..|s| - 1], c)
      case Some((before, after)) => Some((before, after + [s[|s| - 1]]))
      case None => None
  }

  function Authority(s: string): string { s[..IndexOf(s, '/')] }

  function PathOf(s: string): string { s[IndexOf(s, '/')..] }

  function StripUserinfo(s: string): string {
    match SplitLast(Authority(s), '@')
    case Some((_, host)) => host + PathOf(s)
    case None => s
  }

  predicate HasUserinfo(url: string) { '@' in Authority(StripScheme(url)) }

  function TrimEndSlashes(s: string): string {
    if s != [] && s[|s| - 1] == '/' then TrimEndSlashes(s[..|s| - 1]) else s
  }

  predicate IsDefaultPort(scheme: string, port: string) {
    (scheme == "https" && port == "443") || (scheme == "http" && port == "80")
  }

  function StripPort(scheme: string, authority: string): string {
    match SplitLast(authority, ':')
    case Some((host, port)) => if IsDefaultPort(scheme, port) then host else authority
    case None => authority
  }

  function StripGit(s: string): string {
    if EndsWith(s, ".git") then s[..|s| - 4] else s
  }

  function Tidy(s: string): string { TrimEndSlashes(StripGit(TrimEndSlashes(s))) }

  function Canonical(url: string): string {
    match SplitScheme(url)
    case None => url
    case Some((scheme, rest)) =>
      var bare := StripUserinfo(rest);
      Tidy(scheme + "://" + StripPort(scheme, Authority(bare)) + PathOf(bare))
  }

  method CanonicalizeUrl(url: string) returns (out: string)
    ensures out == Canonical(url)
  {
    var split := SplitScheme(url);
    if split.None? {
      return url;
    }
    var scheme, afterScheme := split.value.0, split.value.1;
    var afterUserinfo := StripUserinfo(afterScheme);
    var slash := IndexOf(afterUserinfo, '/');
    var authority, path := afterUserinfo[..slash], afterUserinfo[slash..];
    var canonAuthority := authority;
    var port := SplitLast(authority, ':');
    if port.Some? && IsDefaultPort(scheme, port.value.1) {
      canonAuthority := port.value.0;
    }
    out := scheme + "://" + canonAuthority + path;
    out := TrimEndSlashes(out);
    if EndsWith(out, ".git") {
      out := out[..|out| - 4];
    }
    out := TrimEndSlashes(out);
  }

  // ----- the library splits -----

  /** `scheme` is what a URL starting `scheme://` splits into. */
  predicate IsScheme(scheme: string) {
    scheme == "" || (!StartsWith(scheme + "://", "://") && IsScheme(scheme[1..]))
  }

  lemma {:induction false} SplitSchemeSome(url: string)
    requires SplitScheme(url).Some?
    ensures var (scheme, rest) := SplitScheme(url).value;
      url == scheme + "://" + rest && IsScheme(scheme)
  {
    if !StartsWith(url, "://") {
      SplitSchemeSome(url[1..]);
      var (tail, rest) := SplitScheme(url[1..]).value;
      var scheme := [url[0]] + tail;
      assert url == scheme + "://" + rest;
      assert scheme[1..] == tail;
      assert (scheme + "://")[..3] == url[..3];
    }
  }

  lemma {:induction false} SplitSchemeOf(scheme: string, rest: string)
    requires IsScheme(scheme)
    ensures SplitScheme(scheme + "://" + rest) == Some((scheme, rest))
  {
    var url := scheme + "://" + rest;
    if scheme == "" {
      assert url[..3] == "://" && url[3..] == rest;
    } else {
      assert url[1..] == scheme[1..] + "://" + rest;
      assert url[..3] == (scheme + "://")[..3];
      SplitSchemeOf(scheme[1..], rest);
      assert [url[0]] + scheme[1..] == scheme;
    }
  }

  lemma {:induction false} SplitSchemeColon(scheme: string)
    requires IsScheme(scheme)
    ensures SplitScheme(scheme + ":") == None
  {
    var url := scheme + ":";
    if scheme != "" {
      assert url[1..] == scheme[1..] + ":";
      SplitSchemeColon(scheme[1..]);
      assert |url| >= 3 ==> url[..3] == (scheme + "://")[..3];
    }
  }

  lemma {:induction false} SplitLastSpec(s: string, c: char)
    ensures SplitLast(s, c).None? <==> c !in s
    ensures SplitLast(s, c).Some? ==>
      var (before, after) := SplitLast(s, c).value; s == before + [c] + after && c !in after
  {
    if s != [] && s[|s| - 1] != c {
      SplitLastSpec(s[..|s| - 1], c);
      assert s == s[..|s| - 1] + [s[|s| - 1]];
    }
  }

  lemma {:induction false} SplitLastOf(before: string, c: char, after: string)
    requires c !in after
    ensures SplitLast(before + [c] + after, c) == Some((before, after))
  {
    var s := before + [c] + after;
    if after == "" {
      assert s[..|s| - 1] == before;
    } else {
      var n := |after| - 1;
      assert s[..|s| - 1] == before + [c] + after[..n];
      SplitLastOf(before, c, after[..n]);
      assert after[..n] + [after[n]] == after;
    }
  }

  lemma {:induction false} AuthorityOf(host: string, path: string)
    requires '/' !in host && (path == "" || path[0] == '/')
    ensures Authority(host + path) == host && PathOf(host + path) == path
  {
    IndexOfUnique(host + path, '/', |host|);
  }

  lemma {:induction false} AuthorityHasNoSlash(s: string)
    ensures '/' !in Authority(s) && s == Authority(s) + PathOf(s) && (PathOf(s) == "" || PathOf(s)[0] == '/')
  {
  }

  // ----- trimming -----

  lemma {:induction false} TrimOfAppend(x: string, y: string)
    ensures TrimEndSlashes(x + y) == if TrimEndSlashes(y) != "" then x + TrimEndSlashes(y) else TrimEndSlashes(x)
  {
    var s := x + y;
    if y == "" {
      assert s == x;
    } else if y[|y| - 1] == '/' {
      assert s[..|s| - 1] == x + y[..|y| - 1];
      TrimOfAppend(x, y[..|y| - 1]);
    }
  }

  lemma {:induction false} TrimIsPrefix(s: string)
    ensures TrimEndSlashes(s) <= s
    ensures TrimEndSlashes(s) != "" ==> TrimEndSlashes(s)[|TrimEndSlashes(s)| - 1] != '/'
    ensures TrimEndSlashes(TrimEndSlashes(s)) == TrimEndSlashes(s)
  {
    if s != [] && s[|s| - 1] == '/' { TrimIsPrefix(s[..|s| - 1]); }
  }

  lemma {:induction false} TidyIsPrefix(s: string)
    ensures Tidy(s) <= s && TrimEndSlashes(Tidy(s)) == Tidy(s)
  {
    TrimIsPrefix(s);
    TrimIsPrefix(StripGit(TrimEndSlashes(s)));
  }

  lemma {:induction false} TidyFixes(s: string)
    requires TrimEndSlashes(s) == s
    ensures Tidy(s) == s <==> !EndsWith(s, ".git")
  {
    TrimIsPrefix(StripGit(s));
  }

  lemma {:induction false} GitAfterScheme(x: string, y: string)
    ensures EndsWith(x + "://" + y, ".git") == EndsWith(y, ".git")
  {
    var s := x + "://" + y;
    if |y| < 4 && |s| >= 4 {
      assert s[|s| - 4..][3 - |y|] == '/';
      assert s[|s| - 4..][3 - |y|] != ".git"[3 - |y|];
    } else if |y| >= 4 {
      assert s[|s| - 4..] == y[|y| - 4..];
    }
  }

  /** Canonicalising touches only what stands behind `://`; when nothing of that is left,
      the trim takes the slashes of `://` too. */
  lemma {:induction false} TidyBehindScheme(scheme: string, body: string)
    ensures Tidy(scheme + "://" + body) == if Tidy(body) == "" then scheme + ":" else scheme + "://" + Tidy(body)
  {
    var b := TrimEndSlashes(body);
    var front := scheme + "://";
    var bare := scheme + ":";
    TrimOfAppend(bare, "//");
    assert bare + "//" == front;
    assert TrimEndSlashes("//") == TrimEndSlashes("/") == TrimEndSlashes("") == "";
    assert TrimEndSlashes(front) == bare;
    TrimOfAppend(front, body);
    if b == "" {
      assert bare[|bare| - 1] == ':';
      assert |bare| >= 4 ==> bare[|bare| - 4..][3] == ':';
    } else {
      GitAfterScheme(scheme, b);
      var g := StripGit(b);
      assert StripGit(front + b) == front + g;
      TrimOfAppend(front, g);
    }
  }
}
