/** What a merge writes about where a chart came from. */
module LockSources {
  import opened Text
  import opened Urls
  import opened UrlProperties
  import opened LockFile

  /** A lock entry names its chart, the kind of its source, what was asked for and what was got;
      a replacement is recorded beside the source it stands in for. */
  lemma {:induction false} EntryNamesItsSource(prior: Option<LockedPackage>, name: string, digest: string,
                                               place: string, asked: string, got: string, path: string)
    ensures
      var e := Entry(prior, Chart(name, Path(place), digest));
      && e.name == name && e.digest == digest && e.version == "local" && e.source == "path+file://" + place
      && e.replaced == None
    ensures
      var e := Entry(prior, Chart(name, Oci(place, asked, got), digest));
      e.name == name && e.digest == digest && e.version == asked && e.source == place && e.replaced == None
    ensures
      var e := Entry(prior, Chart(name, Helm(place, got, asked, path), digest));
      && e.name == name && e.digest == digest && e.version == asked && e.source == "helm+" + place + "#" + got
      && e.replaced == None
    ensures
      var e := Entry(prior, Chart(name, OciReplaced(place, asked, path), digest));
      e == Entry(prior, Chart(name, Oci(place, asked, got), digest)).(replaced := Some(path))
    ensures
      var e := Entry(prior, Chart(name, GitReplaced(place, asked, path), digest));
      e == Entry(prior, Chart(name, Git(place, asked, got), digest)).(replaced := Some(path))
  {
  }

  /** However a git repository is written, with credentials or without, its entry has one source:
      `git+scheme://host/path@` and the tag or revision asked for. */
  lemma {:induction false} GitEntryIsCanonical(
      prior: Option<LockedPackage>, name: string, digest: string, asked: string, got: string,
      scheme: string, user: Option<string>, host: string, port: bool, path: string, git: bool, slashes: nat)
    requires scheme == "https" || scheme == "http"
    requires user.Some? ==> '/' !in user.value
    requires host != "" && '/' !in host && '@' !in host && ':' !in host
    requires path != "" && path[0] == '/' && path[|path| - 1] != '/' && !EndsWith(path, ".git")
    ensures
      var url := Written(scheme, user, host, port, path, git, slashes);
      var e := Entry(prior, Chart(name, Git(url, asked, got), digest));
      && e.name == name && e.version == asked && e.digest == digest && e.replaced == None
      && e.source == "git+" + (scheme + "://" + host + path) + "@" + asked
  {
    OneStringPerRepository(scheme, user, host, port, path, git, slashes);
  }

  /** No credentials are written to the lock for any git URL that has something behind its scheme. */
  lemma {:induction false} GitEntryHasNoUserinfo(url: string, asked: string, got: string) returns (canonical: string)
    requires Split(url).Some? && Tidy(Split(url).value.Body()) != ""
    ensures LockedSource(Git(url, asked, got)) == "git+" + canonical + "@" + asked && !HasUserinfo(canonical)
  {
    canonical := Canonical(url);
    CanonicalHasUserinfoExactly(url);
  }
}
