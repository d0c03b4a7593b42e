/** `lookup`: the credential of the longest URL-prefix key. */
module HostAuth {
  import opened Text
  import opened Urls
  import opened UrlProperties

  datatype BasicAuth = BasicAuth(username: string, password: string)

  /** `host[:port]/path` of a URL, without trailing slashes; none when nothing is left. */
  function MatchKey(url: string): Option<string> {
    var bare := StripUserinfo(StripScheme(url));
    if bare == "" then None else Some(TrimEndSlashes(bare))
  }

  predicate PrefixMatches(key: string, prefix: string) {
    && StartsWith(key, prefix)
    && (|key| == |prefix| || key[|prefix|] == '/' || key[|prefix|] == ':')
  }

  /** `prefix` followed by nothing, or by a new path segment or port. */
  ghost predicate SegmentPrefix(key: string, prefix: string) {
    exists rest: string :: key == prefix + rest && (rest == "" || rest[0] == '/' || rest[0] == ':')
  }

  lemma {:induction false} PrefixMatchesIsSegmentPrefix(key: string, prefix: string)
    ensures PrefixMatches(key, prefix) == SegmentPrefix(key, prefix)
  {
    if PrefixMatches(key, prefix) {
      assert key == prefix + key[|prefix|..];
    }
  }

  /** The answer `lookup` has to give: the credential of the one key that is a segment
      prefix of the match key and longer than every other such key; none without one. */
  ghost predicate IsAnswer(table: map<string, BasicAuth>, url: string, found: Option<BasicAuth>) {
    match found
    case None => forall k :: k in table ==> !Applies(url, k)
    case Some(auth) => exists k :: k in table && auth == table[k] && Longest(table, url, k)
  }

  ghost predicate Applies(url: string, k: string) {
    MatchKey(url).Some? && SegmentPrefix(MatchKey(url).value, k)
  }

  ghost predicate Longest(table: map<string, BasicAuth>, url: string, k: string) {
    Applies(url, k) && forall q :: q in table && q != k && Applies(url, q) ==> |q| < |k|
  }

  /** There is only one such answer, so map and sort order cannot matter. */
  lemma {:induction false} AnswerIsUnique(table: map<string, BasicAuth>, url: string,
                                          a: Option<BasicAuth>, b: Option<BasicAuth>)
    requires IsAnswer(table, url, a) && IsAnswer(table, url, b)
    ensures a == b
  {
    if a.Some? && b.Some? {
      var k :| k in table && a.value == table[k] && Longest(table, url, k);
      var q :| q in table && b.value == table[q] && Longest(table, url, q);
      assert k != q ==> |q| < |k| && |k| < |q|;
    }
  }

  ghost predicate ByLengthDescending(ks: seq<string>) {
    forall i, j :: 0 <= i < j < |ks| ==> |ks[i]| >= |ks[j]|
  }

  /** Stable insertion behind every key at least as long. */
  function Insert(k: string, ks: seq<string>): seq<string> {
    if ks == [] || |k| > |ks[0]| then [k] + ks else [ks[0]] + Insert(k, ks[1..])
  }

  lemma {:induction false} InsertSpec(k: string, ks: seq<string>)
    requires ByLengthDescending(ks)
    ensures ByLengthDescending(Insert(k, ks))
    ensures forall q :: q in Insert(k, ks) <==> q == k || q in ks
  {
    if ks != [] && |k| <= |ks[0]| {
      var rest := Insert(k, ks[1..]);
      InsertSpec(k, ks[1..]);
      forall i | 0 <= i < |rest| ensures |ks[0]| >= |rest[i]| {
        assert rest[i] in rest;
        if rest[i] != k {
          var j :| 0 <= j < |ks[1..]| && ks[1..][j] == rest[i];
          assert ks[j + 1] == rest[i];
        }
      }
    }
  }

  /** Keys in the order the loop meets them: longest first, ties in any order. */
  method SortedKeys(table: map<string, BasicAuth>) returns (ks: seq<string>)
    ensures ByLengthDescending(ks) && forall k :: k in ks <==> k in table
  {
    ks := [];
    var left := table.Keys;
    while left != {}
      invariant left <= table.Keys
      invariant ByLengthDescending(ks) && forall k :: k in ks <==> k in table && k !in left
      decreases left
    {
      var k :| k in left;
      InsertSpec(k, ks);
      ks := Insert(k, ks);
      left := left - {k};
    }
  }

  method Lookup(table: map<string, BasicAuth>, url: string) returns (found: Option<BasicAuth>)
    ensures IsAnswer(table, url, found)
  {
    if table == map[] {
      return None;
    }
    var key := MatchKey(url);
    if key.None? {
      return None;
    }
    var prefixes := SortedKeys(table);
    var i := 0;
    while i < |prefixes|
      invariant i <= |prefixes|
      invariant forall j :: 0 <= j < i ==> !Applies(url, prefixes[j])
    {
      var prefix := prefixes[i];
      PrefixMatchesIsSegmentPrefix(key.value, prefix);
      if PrefixMatches(key.value, prefix) {
        assert prefix in table;
        FirstIsLongest(table, url, prefixes, i);
        return Some(table[prefix]);
      }
      i := i + 1;
    }
    found := None;
  }

  lemma {:induction false} FirstIsLongest(table: map<string, BasicAuth>, url: string, ks: seq<string>, i: nat)
    requires ByLengthDescending(ks) && (forall k :: k in ks <==> k in table)
    requires i < |ks| && Applies(url, ks[i]) && forall j :: 0 <= j < i ==> !Applies(url, ks[j])
    ensures Longest(table, url, ks[i])
  {
    forall q | q in table && q != ks[i] && Applies(url, q) ensures |q| < |ks[i]| {
      var j :| 0 <= j < |ks| && ks[j] == q;
      assert i < j && |ks[i]| >= |q|;
      if |q| == |ks[i]| { EqualLengthPrefixes(MatchKey(url).value, ks[i], q); }
    }
  }

  /** Prefixes of one key are told apart by their length. */
  lemma {:induction false} EqualLengthPrefixes(key: string, p: string, q: string)
    requires SegmentPrefix(key, p) && SegmentPrefix(key, q) && |p| == |q|
    ensures p == q
  {
    assert p == key[..|p|] && q == key[..|q|];
  }

  /** Credentials in the URL itself have no say in which key applies. */
  lemma {:induction false} UserinfoDoesNotMatter(scheme: Option<string>, user: string, rest: string)
    requires (scheme.Some? ==> IsScheme(scheme.value)) && '/' !in user
    ensures MatchKey(Behind(scheme, user + "@" + rest)) == MatchKey(Behind(scheme, rest))
  {
    if scheme.Some? {
      SplitSchemeOf(scheme.value, user + "@" + rest);
      SplitSchemeOf(scheme.value, rest);
    } else {
      SchemeAfterUser(user, rest);
    }
    UserinfoIsStripped(user, rest);
  }

  function Behind(scheme: Option<string>, rest: string): string {
    match scheme case Some(s) => s + "://" + rest case None => rest
  }

  /** Userinfo in front of it all hides no scheme separator, and brings none. */
  lemma {:induction false} SchemeAfterUser(user: string, rest: string)
    requires '/' !in user
    ensures SplitScheme(rest).None? ==> SplitScheme(user + "@" + rest).None?
    ensures SplitScheme(rest).Some? ==>
      SplitScheme(user + "@" + rest).Some? && SplitScheme(user + "@" + rest).value.1 == SplitScheme(rest).value.1
  {
    var url := user + "@" + rest;
    if user == "" {
      assert url[1..] == rest;
    } else {
      assert url[1..] == user[1..] + "@" + rest && url[1] != '/';
      SchemeAfterUser(user[1..], rest);
    }
  }

  lemma {:induction false} UserinfoIsStripped(user: string, rest: string)
    requires '/' !in user
    ensures StripUserinfo(user + "@" + rest) == StripUserinfo(rest)
  {
    var a, path := Authority(rest), PathOf(rest);
    AuthorityHasNoSlash(rest);
    assert user + "@" + rest == user + "@" + a + path;
    AuthorityOf(user + "@" + a, path);
    SplitLastSpec(a, '@');
    match SplitLast(a, '@') {
      case None =>
        SplitLastOf(user, '@', a);
        assert user + ['@'] + a == user + "@" + a;
      case Some((u, host)) =>
        SplitLastOf(user + "@" + u, '@', host);
        assert user + "@" + u + ['@'] + host == user + "@" + a;
    }
  }

  /** The match key of a URL is its host, with the port it names, and its path. */
  lemma {:induction false} MatchKeyIsHostAndPath(scheme: Option<string>, host: string, path: string, slashes: nat)
    requires if scheme.Some? then IsScheme(scheme.value) else SplitScheme(host + path + Slashes(slashes)).None?
    requires host != "" && '/' !in host && '@' !in host
    requires path == "" || (path[0] == '/' && path[|path| - 1] != '/')
    ensures MatchKey(Behind(scheme, host + path + Slashes(slashes))) == Some(host + path)
  {
    var end := Slashes(slashes);
    AllSlashes(slashes);
    assert host + path + end == host + (path + end);
    BareKey(scheme, host, path + end);
    SlashesAreTrimmed(host + path, slashes);
  }

  lemma {:induction false} BareKey(scheme: Option<string>, host: string, tail: string)
    requires if scheme.Some? then IsScheme(scheme.value) else SplitScheme(host + tail).None?
    requires host != "" && '/' !in host && '@' !in host && (tail == "" || tail[0] == '/')
    ensures MatchKey(Behind(scheme, host + tail)) == Some(TrimEndSlashes(host + tail))
  {
    if scheme.Some? { SplitSchemeOf(scheme.value, host + tail); }
    NoUserinfoToStrip(host, tail);
  }

  lemma {:induction false} SlashesAreTrimmed(s: string, n: nat)
    requires s != "" && s[|s| - 1] != '/'
    ensures TrimEndSlashes(s + Slashes(n)) == s
  {
    TrimOfAppend(s, Slashes(n));
    SlashesTrim(n);
  }

  lemma {:induction false} NoUserinfoToStrip(host: string, tail: string)
    requires '/' !in host && '@' !in host && (tail == "" || tail[0] == '/')
    ensures StripUserinfo(host + tail) == host + tail
  {
    AuthorityOf(host, tail);
    SplitLastSpec(host, '@');
  }

  /** With nothing behind scheme and userinfo there is no key, and no credential. */
  lemma {:induction false} NothingLeftNoKey(scheme: Option<string>, user: string)
    requires (scheme.Some? ==> IsScheme(scheme.value)) && '/' !in user
    ensures MatchKey(Behind(scheme, "")) == None && MatchKey(Behind(scheme, user + "@")) == None
  {
    if scheme.Some? { SplitSchemeOf(scheme.value, ""); }
    assert StripUserinfo("") == "";
    assert user + "@" + "" == user + "@";
    UserinfoDoesNotMatter(scheme, user, "");
  }

  /** A host key never answers for a longer host that starts with it. */
  lemma {:induction false} NoMatchInsideLabel(host: string, suffix: string)
    requires suffix != "" && suffix[0] != '/' && suffix[0] != ':'
    ensures !SegmentPrefix(host + suffix, host)
  {
    PrefixMatchesIsSegmentPrefix(host + suffix, host);
  }
}
