/** What `canonicalize_url` promises: one string per repository, nothing longer than what
    came in, no credentials, and when a second call changes nothing. */
module UrlProperties {
  import opened Text
  import opened Urls

  /** The parts of a URL `scheme://[userinfo@]authority/path` that the function looks at. */
  datatype Parts = Parts(scheme: string, authority: string, path: string) {
    /** What stands behind `scheme://` once userinfo and a default port are gone. */
    function Body(): string { Host() + path }

    function Host(): string { StripPort(scheme, authority) }
  }

  function Split(url: string): Option<Parts> {
    match SplitScheme(url)
    case None => None
    case Some((scheme, rest)) =>
      var bare := StripUserinfo(rest);
      Some(Parts(scheme, Authority(bare), PathOf(bare)))
  }

  lemma {:induction false} BareSpec(rest: string)
    ensures var bare := StripUserinfo(rest);
      '@' !in Authority(bare) && '/' !in Authority(bare) && |bare| <= |rest| && (bare == rest || |bare| < |rest|)
  {
    var a := Authority(rest);
    SplitLastSpec(a, '@');
    AuthorityHasNoSlash(rest);
    if SplitLast(a, '@').Some? {
      var (user, host) := SplitLast(a, '@').value;
      assert '/' !in host by { assert forall c :: c in host ==> c in user + ['@'] + host; }
      AuthorityOf(host, PathOf(rest));
    }
  }

  lemma {:induction false} StripPortSpec(scheme: string, authority: string)
    ensures StripPort(scheme, authority) <= authority
  {
    SplitLastSpec(authority, ':');
  }

  lemma {:induction false} SplitSpec(url: string)
    requires Split(url).Some?
    ensures var p := Split(url).value;
      && IsScheme(p.scheme)
      && '@' !in p.authority && '/' !in p.authority && '@' !in p.Host() && '/' !in p.Host()
      && (p.path == "" || p.path[0] == '/')
      && Canonical(url) == (if Tidy(p.Body()) == "" then p.scheme + ":" else p.scheme + "://" + Tidy(p.Body()))
      && |p.scheme| + 3 + |p.Body()| <= |url|
      && (|p.scheme| + 3 + |p.Body()| == |url| ==> p.scheme + "://" + p.Body() == url)
  {
    SplitSchemeSome(url);
    var (scheme, rest) := SplitScheme(url).value;
    BareSpec(rest);
    var p := Split(url).value;
    HostSpec(scheme, StripUserinfo(rest));
    CanonicalOfParts(url);
  }

  lemma {:induction false} HostSpec(scheme: string, bare: string)
    requires '@' !in Authority(bare)
    ensures var p := Parts(scheme, Authority(bare), PathOf(bare));
      && '/' !in p.authority && '@' !in p.Host() && '/' !in p.Host()
      && (p.path == "" || p.path[0] == '/')
      && |p.Body()| <= |bare| && (|p.Body()| == |bare| ==> p.Body() == bare)
  {
    AuthorityHasNoSlash(bare);
    StripPortSpec(scheme, Authority(bare));
  }

  lemma {:induction false} CanonicalOfParts(url: string)
    requires Split(url).Some?
    ensures var p := Split(url).value;
      Canonical(url) == if Tidy(p.Body()) == "" then p.scheme + ":" else p.scheme + "://" + Tidy(p.Body())
  {
    var p := Split(url).value;
    TidyBehindScheme(p.scheme, p.Body());
    assert p.scheme + "://" + p.Host() + p.path == p.scheme + "://" + p.Body();
  }

  /** Never longer, and unchanged unless shorter. */
  lemma {:induction false} CanonicalNeverLengthens(url: string)
    ensures |Canonical(url)| <= |url|
    ensures |Canonical(url)| == |url| ==> Canonical(url) == url
  {
    if Split(url).Some? {
      SplitSpec(url);
      var p := Split(url).value;
      TidyIsPrefix(p.Body());
      var t := Tidy(p.Body());
      assert |t| == |p.Body()| ==> t == p.Body()[..|t|] == p.Body();
    }
  }

  function Iterated(f: string -> string, s: string, n: nat): string {
    if n == 0 then s else f(Iterated(f, s, n - 1))
  }

  /** A function that shortens whatever it changes settles, after at most as many calls as
      there are characters. */
  lemma {:induction false} ShorteningSettles(f: string -> string, s: string) returns (n: nat)
    requires forall t :: |f(t)| <= |t| && (|f(t)| == |t| ==> f(t) == t)
    ensures n <= |s| && f(Iterated(f, s, n)) == Iterated(f, s, n)
    decreases |s|
  {
    if f(s) == s {
      n := 0;
    } else {
      var k := ShorteningSettles(f, f(s));
      IteratedTail(f, s, k);
      n := k + 1;
    }
  }

  lemma {:induction false} IteratedTail(f: string -> string, s: string, n: nat)
    ensures Iterated(f, f(s), n) == Iterated(f, s, n + 1)
  {
    if n > 0 {
      IteratedTail(f, s, n - 1);
    }
  }

  /** Repeating the function settles, after at most as many calls as there are characters. */
  lemma {:induction false} IteratingSettles(url: string) returns (n: nat)
    ensures n <= |url| && Canonical(Iterated(Canonical, url, n)) == Iterated(Canonical, url, n)
  {
    forall t ensures |Canonical(t)| <= |t| && (|Canonical(t)| == |t| ==> Canonical(t) == t) {
      CanonicalNeverLengthens(t);
    }
    n := ShorteningSettles(Canonical, url);
  }

  // ----- idempotence -----

  predicate EndsInDefaultPort(scheme: string, authority: string) {
    match SplitLast(authority, ':') case Some((_, port)) => IsDefaultPort(scheme, port) case None => false
  }

  /** Slashes aside, the body ends in `.git`, and in `.git` again once that is removed. */
  predicate TwoGitSuffixes(body: string) {
    var b := TrimEndSlashes(body);
    EndsWith(b, ".git") && EndsWith(TrimEndSlashes(StripGit(b)), ".git")
  }

  /** The host, less a `.git` that is removed from it for want of a path. */
  function HostLeft(p: Parts): string {
    if TrimEndSlashes(p.path) == "" then StripGit(p.Host()) else p.Host()
  }

  /** A second default port, or one that a `.git` was hiding. */
  predicate LeavesDefaultPort(p: Parts) { EndsInDefaultPort(p.scheme, HostLeft(p)) }

  lemma {:induction false} GitSuffixAfterTrim(body: string)
    ensures EndsWith(Tidy(body), ".git") == TwoGitSuffixes(body)
  {
    TrimIsPrefix(body);
  }

  lemma {:induction false} NoSlashNoTrim(s: string)
    requires '/' !in s
    ensures TrimEndSlashes(s) == s
  {
  }

  /** The authority of the tidied body is what is left of the host. */
  lemma {:induction false} TidyAuthority(host: string, path: string)
    requires '/' !in host && (path == "" || path[0] == '/')
    ensures Authority(Tidy(host + path)) == if TrimEndSlashes(path) == "" then StripGit(host) else host
  {
    NoSlashNoTrim(host);
    NoSlashNoTrim(StripGit(host));
    TrimOfAppend(host, path);
    var q := TrimEndSlashes(path);
    if q == "" {
      AuthorityOf(StripGit(host), "");
      assert StripGit(host) + "" == StripGit(host);
    } else {
      TrimIsPrefix(path);
      assert q[0] == path[0] == '/';
      GitAfterSlash(host, q);
      var g := StripGit(q);
      TrimOfAppend(host, g);
      TrimIsPrefix(g);
      var h := TrimEndSlashes(g);
      assert h != "" ==> h[0] == g[0] == '/';
      assert Tidy(host + path) == host + h;
      AuthorityOf(host, h);
    }
  }

  lemma {:induction false} GitAfterSlash(host: string, q: string)
    requires q != "" && q[0] == '/'
    ensures EndsWith(host + q, ".git") == EndsWith(q, ".git")
    ensures StripGit(host + q) == host + StripGit(q)
    ensures StripGit(q) == "" || StripGit(q)[0] == '/'
  {
    var s := host + q;
    if |q| >= 4 {
      assert s[|s| - 4..] == q[|q| - 4..];
      assert EndsWith(q, ".git") ==> |q| > 4 by { assert q[..] == q; }
    } else if |s| >= 4 {
      assert s[|s| - 4..][4 - |q|] == '/';
    }
  }

  /** A second call changes nothing exactly when the body does not end in `.git` twice and
      no default port is left at the end of the host. */
  lemma {:induction false} CanonicalIdempotentExactly(url: string)
    ensures Canonical(Canonical(url)) == Canonical(url) <==>
            (Split(url).Some? ==> !TwoGitSuffixes(Split(url).value.Body()) && !LeavesDefaultPort(Split(url).value))
  {
    if Split(url).Some? {
      SplitSpec(url);
      var p := Split(url).value;
      var t := Tidy(p.Body());
      GitSuffixAfterTrim(p.Body());
      TidyAuthority(p.Host(), p.path);
      if t == "" {
        SplitSchemeColon(p.scheme);
        assert Authority("") == "";
      } else {
        CanonicalOfCanonical(p.scheme, p.Host(), p.path);
      }
    }
  }

  lemma {:induction false} StripGitKeepsFree(s: string, c: char)
    requires c !in s
    ensures c !in StripGit(s)
  {
    assert forall k :: k in StripGit(s) ==> k in s;
  }

  lemma {:induction false} CanonicalOfCanonical(scheme: string, host: string, path: string)
    requires IsScheme(scheme) && '@' !in host && '/' !in host && (path == "" || path[0] == '/')
    requires Tidy(host + path) != ""
    ensures var t := Tidy(host + path);
      Canonical(scheme + "://" + t) == scheme + "://" + t <==>
      !EndsWith(t, ".git") && !EndsInDefaultPort(scheme, Authority(t))
  {
    var t := Tidy(host + path);
    var url := scheme + "://" + t;
    SplitSchemeOf(scheme, t);
    TidyAuthority(host, path);
    StripGitKeepsFree(host, '@');
    SplitLastSpec(Authority(t), '@');
    assert StripUserinfo(t) == t;
    SplitSpec(url);
    var p := Split(url).value;
    AuthorityHasNoSlash(t);
    SplitLastSpec(p.authority, ':');
    TidyIsPrefix(host + path);
    TidyIsPrefix(p.Body());
    if EndsInDefaultPort(scheme, p.authority) {
      assert |p.Body()| < |t|;
    } else {
      assert p.Body() == t;
      TidyFixes(t);
    }
  }

  // ----- credentials -----

  /** No canonical URL carries userinfo, save a string that never had `://`, and one left
      with nothing behind its scheme. */
  lemma {:induction false} CanonicalHasUserinfoExactly(url: string)
    ensures HasUserinfo(Canonical(url)) <==>
      match Split(url)
      case None => '@' in Authority(url)
      case Some(p) => Tidy(p.Body()) == "" && '@' in Authority(p.scheme + ":")
  {
    if Split(url).Some? {
      SplitSpec(url);
      var p := Split(url).value;
      var t := Tidy(p.Body());
      if t == "" {
        SplitSchemeColon(p.scheme);
      } else {
        SplitSchemeOf(p.scheme, t);
        TidyAuthority(p.Host(), p.path);
        StripGitKeepsFree(p.Host(), '@');
      }
    }
  }

  // ----- one string per repository -----

  function Slashes(n: nat): string { if n == 0 then "" else Slashes(n - 1) + "/" }

  lemma {:induction false} AllSlashes(n: nat)
    ensures |Slashes(n)| == n && forall i :: 0 <= i < n ==> Slashes(n)[i] == '/'
  {
    if n > 0 { AllSlashes(n - 1); }
  }

  lemma {:induction false} SlashesTrim(n: nat)
    ensures TrimEndSlashes(Slashes(n)) == ""
  {
    if n > 0 {
      assert Slashes(n)[..|Slashes(n)| - 1] == Slashes(n - 1);
      SlashesTrim(n - 1);
    }
  }

  function DefaultPort(scheme: string): string { if scheme == "https" then ":443" else ":80" }

  function WrittenUser(user: Option<string>): string {
    match user case Some(u) => u + "@" case None => ""
  }

  function WrittenHost(scheme: string, host: string, port: bool): string {
    host + if port then DefaultPort(scheme) else ""
  }

  function WrittenPath(path: string, git: bool, slashes: nat): string {
    path + (if git then ".git" else "") + Slashes(slashes)
  }

  /** The ways one repository may be written. */
  function Written(scheme: string, user: Option<string>, host: string, port: bool, path: string,
                   git: bool, slashes: nat): string
  {
    scheme + "://" + (WrittenUser(user) + WrittenHost(scheme, host, port) + WrittenPath(path, git, slashes))
  }

  /** However a repository is written, with or without credentials, the scheme's own port,
      `.git` and slashes at the end, the result is `scheme://host/path`. */
  lemma {:induction false} OneStringPerRepository(
      scheme: string, user: Option<string>, host: string, port: bool, path: string, git: bool, slashes: nat)
    requires scheme == "https" || scheme == "http"
    requires user.Some? ==> '/' !in user.value
    requires host != "" && '/' !in host && '@' !in host && ':' !in host
    requires path != "" && path[0] == '/' && path[|path| - 1] != '/' && !EndsWith(path, ".git")
    ensures Canonical(Written(scheme, user, host, port, path, git, slashes)) == scheme + "://" + host + path
  {
    var authority, tail := WrittenHost(scheme, host, port), WrittenPath(path, git, slashes);
    ColonFreeIsScheme(scheme);
    BodyIsTidied(scheme, host, port, path, git, slashes);
    CanonicalOfWritten(scheme, user, authority, tail, host + path);
    assert scheme + "://" + (host + path) == scheme + "://" + host + path;
  }

  /** Any other port is kept, and so is a default one under another scheme. */
  lemma {:induction false} OtherPortsAreKept(
      scheme: string, user: Option<string>, host: string, port: string, path: string, git: bool, slashes: nat)
    requires ':' !in scheme && !(scheme == "https" && port == "443") && !(scheme == "http" && port == "80")
    requires user.Some? ==> '/' !in user.value
    requires '/' !in host && '@' !in host && '/' !in port && '@' !in port && ':' !in port
    requires path != "" && path[0] == '/' && path[|path| - 1] != '/' && !EndsWith(path, ".git")
    ensures Canonical(scheme + "://" + (WrittenUser(user) + (host + ":" + port) + WrittenPath(path, git, slashes)))
         == scheme + "://" + (host + ":" + port + path)
  {
    var authority := host + ":" + port;
    ColonFreeIsScheme(scheme);
    SplitLastOf(host, ':', port);
    assert host + [':'] + port == authority;
    assert StripPort(scheme, authority) == authority;
    TailIsTidied(authority, path, git, slashes);
    CanonicalOfWritten(scheme, user, authority, WrittenPath(path, git, slashes), authority + path);
  }

  lemma {:induction false} CanonicalOfWritten(scheme: string, user: Option<string>, authority: string,
                                              tail: string, body: string)
    requires IsScheme(scheme) && (user.Some? ==> '/' !in user.value)
    requires '/' !in authority && '@' !in authority && tail != "" && tail[0] == '/'
    requires Tidy(Parts(scheme, authority, tail).Body()) == body != ""
    ensures Canonical(scheme + "://" + (WrittenUser(user) + authority + tail)) == scheme + "://" + body
  {
    PartsOfWritten(scheme, user, authority, tail);
    CanonicalOfParts(scheme + "://" + (WrittenUser(user) + authority + tail));
  }

  lemma {:induction false} BodyIsTidied(scheme: string, host: string, port: bool, path: string, git: bool, slashes: nat)
    requires scheme == "https" || scheme == "http"
    requires host != "" && ':' !in host
    requires path != "" && path[0] == '/' && path[|path| - 1] != '/' && !EndsWith(path, ".git")
    ensures
      Tidy(Parts(scheme, WrittenHost(scheme, host, port), WrittenPath(path, git, slashes)).Body()) == host + path
  {
    PortIsStripped(scheme, host, port);
    TailIsTidied(host, path, git, slashes);
  }

  lemma {:induction false} PartsOfWritten(scheme: string, user: Option<string>, authority: string, tail: string)
    requires IsScheme(scheme) && (user.Some? ==> '/' !in user.value)
    requires '/' !in authority && '@' !in authority && tail != "" && tail[0] == '/'
    ensures Split(scheme + "://" + (WrittenUser(user) + authority + tail)) == Some(Parts(scheme, authority, tail))
  {
    var rest := WrittenUser(user) + authority + tail;
    SplitSchemeOf(scheme, rest);
    UserinfoIsStripped(user, authority, tail);
    AuthorityOf(authority, tail);
  }

  lemma {:induction false} ColonFreeIsScheme(scheme: string)
    requires ':' !in scheme
    ensures IsScheme(scheme)
  {
    if scheme != "" {
      assert (scheme + "://")[0] == scheme[0] != ':';
      ColonFreeIsScheme(scheme[1..]);
    }
  }

  lemma {:induction false} UserinfoIsStripped(user: Option<string>, authority: string, tail: string)
    requires user.Some? ==> '/' !in user.value
    requires '/' !in authority && '@' !in authority && tail != "" && tail[0] == '/'
    ensures StripUserinfo(WrittenUser(user) + authority + tail) == authority + tail
  {
    var userinfo := WrittenUser(user);
    AuthorityOf(userinfo + authority, tail);
    if user.Some? {
      SplitLastOf(user.value, '@', authority);
      assert user.value + ['@'] + authority == userinfo + authority;
    } else {
      assert userinfo + authority == authority;
      SplitLastSpec(authority, '@');
    }
  }

  lemma {:induction false} PortIsStripped(scheme: string, host: string, port: bool)
    requires scheme == "https" || scheme == "http"
    requires ':' !in host
    ensures StripPort(scheme, WrittenHost(scheme, host, port)) == host
  {
    if port {
      var number := if scheme == "https" then "443" else "80";
      SplitLastOf(host, ':', number);
      assert host + [':'] + number == host + DefaultPort(scheme);
    } else {
      assert host + "" == host;
      SplitLastSpec(host, ':');
    }
  }

  lemma {:induction false} TailIsTidied(host: string, path: string, git: bool, slashes: nat)
    requires path != "" && path[0] == '/' && path[|path| - 1] != '/' && !EndsWith(path, ".git")
    ensures Tidy(host + WrittenPath(path, git, slashes)) == host + path
  {
    var full := host + path;
    var g := if git then ".git" else "";
    assert host + (path + g + Slashes(slashes)) == full + g + Slashes(slashes);
    TrimOfAppend(full + g, Slashes(slashes));
    SlashesTrim(slashes);
    GitAfterSlash(host, path);
    assert full[|full| - 1] == path[|path| - 1];
    if git {
      var s := full + g;
      assert s[|s| - 1] == 't';
      assert s[|s| - 4..] == ".git" && s[..|s| - 4] == full;
    } else {
      assert full + g == full;
    }
  }

  /** URLs that need two calls, although the function is documented as idempotent. */
  lemma {:induction false} DoubleGitNeedsTwoCalls(url: string, path: string)
    requires Split(url).Some? && Split(url).value.path == path + ".git" + ".git"
    ensures Canonical(Canonical(url)) != Canonical(url)
  {
    var p := Split(url).value;
    assert p.Body() == (p.Host() + path) + ".git" + ".git";
    GitTwice(p.Host() + path);
    CanonicalIdempotentExactly(url);
  }

  lemma {:induction false} GitTwice(s: string)
    ensures TwoGitSuffixes(s + ".git" + ".git")
  {
    var once, twice := s + ".git", s + ".git" + ".git";
    assert once[|once| - 4..] == ".git" && twice[|twice| - 4..] == ".git" && twice[..|twice| - 4] == once;
    assert twice[|twice| - 1] == 't' && once[|once| - 1] == 't';
  }
}
