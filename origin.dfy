/**
 * Where a package's source lives. `getCommitFromPurl` dispatches on the
 * package type to one registry lookup; most lookups hand the repository URL
 * to `get_commit_sha`, which rewrites it into a clone URL, clones it and asks
 * `git rev-list` for the commit of the version tag. `get_deb_info` first
 * moves retired Debian VCS hosts to salsa.debian.org.
 *
 * The registries and git are oracles: a `Registry` answers each request with
 * the fields the source reads from the reply, already parsed, and `Git` says
 * how a clone ends and what `rev-list` prints. The working directory, which
 * `get_commit_sha` changes while it works, is a field of `Workspace`.
 */
module Origin {
  import opened Wrappers
  import opened Text

  // ------------------------------------------------------------ package types

  /** The package types getCommitFromPurl knows how to look up. */
  datatype Ecosystem = PyPI | Npm | Golang | Maven | Cargo | Debian

  /** The purl type string of each ecosystem. */
  function EcosystemName(e: Ecosystem): string {
    match e
    case PyPI => "pypi"
    case Npm => "npm"
    case Golang => "golang"
    case Maven => "maven"
    case Cargo => "cargo"
    case Debian => "deb"
  }

  /** A purl type: missing or empty, one of the known ecosystems, or anything else. */
  datatype PackageType = NoType | Known(ecosystem: Ecosystem) | Unsupported(name: string)

  /** The dispatch of getCommitFromPurl on its `package_type` argument. */
  function ParseType(t: Option<string>): (r: PackageType)
    ensures r.NoType? <==> t.None? || t.value == ""
    ensures r.Known? ==> t == Some(EcosystemName(r.ecosystem))
    ensures r.Unsupported? ==> t == Some(r.name) && forall e :: EcosystemName(e) != r.name
  {
    if t.None? || t.value == "" then NoType
    else if t.value == "pypi" then Known(PyPI)
    else if t.value == "npm" then Known(Npm)
    else if t.value == "golang" then Known(Golang)
    else if t.value == "maven" then Known(Maven)
    else if t.value == "cargo" then Known(Cargo)
    else if t.value == "deb" then Known(Debian)
    else Unsupported(t.value)
  }

  /** Every ecosystem is reached by its own type string, and by no other. */
  lemma ParseTypeRoundTrip(e: Ecosystem, t: string)
    ensures ParseType(Some(EcosystemName(e))) == Known(e)
    ensures ParseType(Some(t)) == Known(e) <==> t == EcosystemName(e)
  {
  }

  // ------------------------------------------------------------- registries

  /** A member of a JSON reply: absent, null, or a string. */
  datatype Field = Absent | Null | Value(text: string)

  /** Python's `d.get(key, default)` on one member. */
  function Get(f: Field, default: Option<string>): Option<string> {
    match f
    case Absent => default
    case Null => None
    case Value(s) => Some(s)
  }

  /** The registry request each lookup sends. */
  datatype Request =
    | PyPIJson(name: string, version: Option<string>)
    | NpmVersion(name: string, version: Option<string>)
    | GoInfo(domain: Option<string>, modulePath: string, version: Option<string>)
    | MavenPom(groupPath: string, artifact: string, version: Option<string>)
    | CrateInfo(name: string, version: Option<string>)
    | DebianDsc(name: string, version: Option<string>)

  /** The `Origin` object of a Go module proxy reply. */
  datatype GoOrigin = GoOrigin(url: Field, hash: Field)

  /**
   * A registry reply, already parsed: `Unreachable` when `requests.get`
   * raises (a connection error or the two-second timeout); otherwise the
   * HTTP status; whether the body parses as the lookup reads it (JSON, or
   * the POM's XML for Maven); the repository URL the lookup reads (PyPI
   * `info.home_page`, npm `repository.url`, the Maven `scm/url` text,
   * crates.io `crate.repository`, the `Vcs-Git` value of a Debian source
   * description); and the `Origin` of a Go proxy reply.
   */
  datatype Answer =
    | Unreachable
    | Answer(status: int, parses: bool, repo: Field, origin: Option<GoOrigin>)

  type Registry = Request -> Answer

  /** Where a registry lookup leads. */
  datatype RegistryOutcome =
    | Raises                                                 // an exception leaves the lookup
    | Done(repo: Option<string>, commit: Option<string>)     // returns without asking git
    | Probe(repo: Option<string>, version: Option<string>)   // returns `repo` and get_commit_sha(repo, version)

  /** The one registry request the lookup of an ecosystem sends; Maven needs a group. */
  function LookupRequest(e: Ecosystem, ns: Option<string>, name: string, version: Option<string>): Request
    requires e == Maven ==> ns.Some?
  {
    match e
    case PyPI => PyPIJson(name, version)
    case Npm => NpmVersion(name, version)
    case Golang => GoInfo(ns, name, version)
    case Maven => MavenPom(Replace(ns.value, ".", "/"), name, version)
    case Cargo => CrateInfo(name, version)
    case Debian => DebianDsc(name, version)
  }

  /** What the lookup of an ecosystem makes of its registry's reply. */
  function ReadAnswer(e: Ecosystem, a: Answer, version: Option<string>): RegistryOutcome {
    if a.Unreachable? then Raises
    else
      match e
      case PyPI => if !a.parses then Raises else Probe(Get(a.repo, Some("")), version)
      case Npm =>
        if a.status != 200 then Done(Some(""), None)
        else if !a.parses then Raises
        else Probe(Get(a.repo, Some("")), version)
      case Golang =>
        if a.status != 200 then Done(Some(""), None)
        else if !a.parses then Raises
        else if a.origin.Some? then Done(Get(a.origin.value.url, None), Get(a.origin.value.hash, None))
        else Done(Some(""), None)
      case Maven =>
        if a.status != 200 then Done(Some(""), None)
        else if !a.parses then Raises
        else if Get(a.repo, None).None? then Done(None, None)
        else Probe(Get(a.repo, None), version)
      case Cargo => if !a.parses then Raises else Probe(Get(a.repo, Some("")), version)
      case Debian =>
        var url := if a.status == 200 then Get(a.repo, None) else None;
        if url.None? then Done(Some(""), None) else Probe(Some(DebianRepoUrl(url.value)), version)
  }

  /** get_pypi_info, get_npm_info, get_golang_info, get_java_info, get_rust_info and get_deb_info, up to their call of get_commit_sha. */
  function RegistryLookup(reg: Registry, ty: PackageType, ns: Option<string>, name: string,
                          version: Option<string>): RegistryOutcome
  {
    match ty
    case NoType => Done(None, None)
    case Unsupported(_) => Done(None, None)
    case Known(e) =>
      if e == Maven && ns.None? then Raises   // `group.replace` on None
      else ReadAnswer(e, reg(LookupRequest(e, ns, name, version)), version)
  }

  /**
   * A lookup raises exactly when Maven has no group, the request itself
   * raises, or a body the lookup goes on to read does not parse: PyPI and
   * crates.io read it whatever the status, npm, Go and Maven only after a
   * 200, and the Debian lookup reads text, which always succeeds.
   */
  lemma LookupRaises(reg: Registry, e: Ecosystem, ns: Option<string>, name: string, version: Option<string>)
    ensures RegistryLookup(reg, Known(e), ns, name, version).Raises? <==>
              (e == Maven && ns.None?) ||
              (var a := reg(LookupRequest(e, ns, name, version));
               a.Unreachable? ||
               (e != Debian && !a.parses && (e == PyPI || e == Cargo || a.status == 200)))
  {
  }

  // ------------------------------------------------------------- clone URLs

  const HttpGithub: string := "http://github.com"
  const GitGithub: string := "git://github.com"
  const HttpsGithub: string := "https://github.com"
  const GitPlusHttps: string := "git+https://"
  const GitPlusSsh: string := "git+ssh://git@"
  const GitPlus: string := "git+"
  const Https: string := "https://"

  /**
   * The five rewrites get_commit_sha applies before cloning, in order; the
   * third replaces `git+https://` by `third`.
   */
  function CloneRewrite(u: string, third: string): string {
    var a := Replace(u, HttpGithub, HttpsGithub);
    var b := Replace(a, GitGithub, HttpsGithub);
    var c := Replace(b, GitPlusHttps, third);
    var d := Replace(c, GitPlusSsh, Https);
    Replace(d, GitPlus, "")
  }

  /** The rewrites as the source writes them: `git+https://` becomes `https://github.com`. */
  function CloneUrlAsWritten(u: string): string {
    CloneRewrite(u, HttpsGithub)
  }

  /** The rewrites as intended: `git+https://` becomes `https://`. */
  function CloneUrl(u: string): string {
    CloneRewrite(u, Https)
  }

  /** A rewrite whose pattern holds a `+` leaves a string without `+` alone. */
  lemma PlusKept(s: string, pat: string, rep: string)
    requires '+' in pat && '+' !in s
    ensures Replace(s, pat, rep) == s
  {
    AbsentByChar(s, pat, '+');
    ReplaceAbsent(s, pat, rep);
  }

  /** The last two rewrites leave a string without `+` alone. */
  lemma PlusFreeTail(s: string)
    requires '+' !in s
    ensures Replace(Replace(s, GitPlusSsh, Https), GitPlus, "") == s
  {
    PlusKept(s, GitPlusSsh, Https);
    PlusKept(s, GitPlus, "");
  }

  /** The GitHub rewrites leave a string whose only `:` follows `a` alone. */
  lemma GithubRewritesKeep(a: string, b: string)
    requires ':' !in a && ':' !in b
    requires |a| < 4 || a[|a| - 4] != 'h'
    requires |a| < 3 || a[|a| - 3] != 'g'
    ensures Replace(Replace(a + [':'] + b, HttpGithub, HttpsGithub), GitGithub, HttpsGithub) == a + [':'] + b
  {
    AnchoredKeep(a, b, ':', HttpGithub, HttpsGithub, 4);
    AnchoredKeep(a, b, ':', GitGithub, HttpsGithub, 3);
  }

  /** An npm-style `git+https://` URL: the third rewrite alone applies. */
  lemma CloneRewriteGitPlusHttps(p: string, third: string)
    requires ':' !in p && '+' !in p && '+' !in third
    ensures CloneRewrite(GitPlusHttps + p, third) == third + p
  {
    SplitAt(GitPlusHttps, "git+https", ':', "//", p);
    GithubRewritesKeep("git+https", "//" + p);
    ReplaceLeading(GitPlusHttps, p, third, '+');
    PlusFreeTail(third + p);
  }

  /** As written, a `git+https://host/...` URL gets a second host in front. */
  lemma CloneUrlAsWrittenDoublesHost(p: string)
    requires ':' !in p && '+' !in p
    ensures CloneUrlAsWritten(GitPlusHttps + p) == HttpsGithub + p
  {
    CloneRewriteGitPlusHttps(p, HttpsGithub);
  }

  /** Corrected, a `git+https://` URL only loses its `git+`. */
  lemma CloneUrlGitPlusHttps(p: string)
    requires ':' !in p && '+' !in p
    ensures CloneUrl(GitPlusHttps + p) == Https + p
  {
    CloneRewriteGitPlusHttps(p, Https);
  }

  /** An `https://` URL is cloned as it is, by the chain as written and as corrected. */
  lemma CloneUrlHttps(p: string)
    requires ':' !in p && '+' !in p
    ensures CloneUrlAsWritten(Https + p) == Https + p
    ensures CloneUrl(Https + p) == Https + p
  {
    SplitAt(Https, "https", ':', "//", p);
    GithubRewritesKeep("https", "//" + p);
    PlusKept(Https + p, GitPlusHttps, HttpsGithub);
    PlusKept(Https + p, GitPlusHttps, Https);
    PlusFreeTail(Https + p);
  }

  /** The first three rewrites leave a `git+ssh://git@` URL alone. */
  lemma SshKept(p: string, third: string)
    requires ':' !in p
    ensures var u := GitPlusSsh + p;
            Replace(Replace(Replace(u, HttpGithub, HttpsGithub), GitGithub, HttpsGithub), GitPlusHttps, third) == u
  {
    SplitAt(GitPlusSsh, "git+ssh", ':', "//git@", p);
    GithubRewritesKeep("git+ssh", "//git@" + p);
    AnchoredKeep("git+ssh", "//git@" + p, ':', GitPlusHttps, third, 9);
  }

  /** A `git+ssh://git@` URL is cloned over https, by the chain as written and as corrected. */
  lemma CloneUrlSsh(p: string)
    requires ':' !in p && '+' !in p
    ensures CloneUrlAsWritten(GitPlusSsh + p) == Https + p
    ensures CloneUrl(GitPlusSsh + p) == Https + p
  {
    SshKept(p, HttpsGithub);
    SshKept(p, Https);
    ReplaceLeading(GitPlusSsh, p, Https, '+');
    PlusKept(Https + p, GitPlus, "");
  }

  /** A GitHub URL over https is left alone by the `git://github.com` rewrite. */
  lemma HttpsGithubKept(p: string)
    requires ':' !in p
    ensures Replace(HttpsGithub + p, GitGithub, HttpsGithub) == HttpsGithub + p
  {
    AnchoredKeepAt(HttpsGithub, "https", ':', "//github.com", p, GitGithub, HttpsGithub, 3);
  }

  /** The rewrites after the GitHub ones leave an https GitHub URL alone, whatever the third one writes. */
  lemma HttpsGithubFinal(p: string, third: string)
    requires '+' !in p
    ensures var h := HttpsGithub + p;
            Replace(Replace(Replace(h, GitPlusHttps, third), GitPlusSsh, Https), GitPlus, "") == h
  {
    var h := HttpsGithub + p;
    PlusKept(h, GitPlusHttps, third);
    PlusFreeTail(h);
  }

  /** An `http://github.com` URL is cloned over https, by the chain as written and as corrected. */
  lemma CloneUrlHttpGithub(p: string)
    requires ':' !in p && '+' !in p
    ensures CloneUrlAsWritten(HttpGithub + p) == HttpsGithub + p
    ensures CloneUrl(HttpGithub + p) == HttpsGithub + p
  {
    ReplaceLeading(HttpGithub, p, HttpsGithub, ':');
    HttpsGithubKept(p);
    HttpsGithubFinal(p, HttpsGithub);
    HttpsGithubFinal(p, Https);
  }

  /** A `git://github.com` URL is cloned over https, by the chain as written and as corrected. */
  lemma CloneUrlGitGithub(p: string)
    requires ':' !in p && '+' !in p
    ensures CloneUrlAsWritten(GitGithub + p) == HttpsGithub + p
    ensures CloneUrl(GitGithub + p) == HttpsGithub + p
  {
    SplitAt(GitGithub, "git", ':', "//github.com", p);
    AnchoredKeep("git", "//github.com" + p, ':', HttpGithub, HttpsGithub, 4);
    ReplaceLeading(GitGithub, p, HttpsGithub, ':');
    HttpsGithubFinal(p, HttpsGithub);
    HttpsGithubFinal(p, Https);
  }

  // ------------------------------------------------------------- Debian

  /** A character of Python's `\w`, limited to ASCII. */
  predicate IsWord(c: char) {
    'a' <= c <= 'z' || 'A' <= c <= 'Z' || '0' <= c <= '9' || c == '_'
  }

  /** How many word characters `s` starts with. */
  function WordRun(s: string): (n: nat)
    ensures n <= |s|
    decreases |s|
  {
    if s != [] && IsWord(s[0]) then 1 + WordRun(s[1..]) else 0
  }

  /**
   * `re.sub(r"pkg-(\w+)", r"\1-team", s)`: scanning left to right, each
   * `pkg-` followed by a run of word characters becomes the run and `-team`.
   */
  function PkgToTeam(s: string): string
    decreases |s|
  {
    if IsPrefix("pkg-", s) && WordRun(s[4..]) > 0 then
      var n := WordRun(s[4..]);
      s[4..4 + n] + "-team" + PkgToTeam(s[4 + n..])
    else if s == [] then []
    else [s[0]] + PkgToTeam(s[1..])
  }

  const Salsa: string := "https://salsa.debian.org"

  /** One conditional rewrite of get_deb_info: the host becomes salsa, then every `.git` goes. */
  function SalsaStep(u: string, host: string): string
    requires host != []
  {
    if Contains(u, host) then Replace(Replace(u, host, Salsa), ".git", "") else u
  }

  /** get_deb_info's rewrites of a `Vcs-Git` URL, in the source's order. */
  function DebianRepoUrl(u: string): string {
    var a := SalsaStep(u, "git://git.debian.org/git");
    var b := SalsaStep(a, "git://git.debian.org/users");
    var c := SalsaStep(b, "git://anonscm.debian.org/users");
    var d := SalsaStep(c, "git://git.debian.org");
    var e := SalsaStep(d, "git://anonscm.debian.org");
    PkgToTeam(e)
  }

  /** Without `pkg-` nothing is renamed. */
  lemma {:induction false} PkgToTeamAbsent(s: string)
    requires !Contains(s, "pkg-")
    ensures PkgToTeam(s) == s
    decreases |s|
  {
    if s != [] {
      PkgToTeamAbsent(s[1..]);
    }
  }

  lemma {:induction false} WordRunOf(w: string, rest: string)
    requires forall i :: 0 <= i < |w| ==> IsWord(w[i])
    requires rest == [] || !IsWord(rest[0])
    ensures WordRun(w + rest) == |w|
    decreases |w|
  {
    if w == [] {
      assert w + rest == rest;
    } else {
      assert (w + rest)[1..] == w[1..] + rest;
      WordRunOf(w[1..], rest);
    }
  }

  /** `pkg-X` followed by a non-word character becomes `X-team`. */
  lemma PkgToTeamRename(w: string, rest: string)
    requires w != [] && forall i :: 0 <= i < |w| ==> IsWord(w[i])
    requires rest == [] || !IsWord(rest[0])
    ensures PkgToTeam("pkg-" + w + rest) == w + "-team" + PkgToTeam(rest)
  {
    var s := "pkg-" + w + rest;
    assert s[..4] == "pkg-";
    assert s[4..] == w + rest;
    WordRunOf(w, rest);
    assert s[4..4 + |w|] == w;
    assert s[4 + |w|..] == rest;
  }

  lemma {:induction false} WordRunAround(x: string, b: string)
    ensures WordRun(x + "/" + b) == WordRun(x)
    decreases |x|
  {
    if x == [] {
      assert x + "/" + b == "/" + b;
    } else {
      assert (x + "/" + b)[1..] == x[1..] + "/" + b;
      WordRunAround(x[1..], b);
    }
  }

  /** Whether `PkgToTeam` renames at the start of `s`. */
  predicate RenamesAtStart(s: string) {
    IsPrefix("pkg-", s) && WordRun(s[4..]) > 0
  }

  /** A `/` after `a` does not change whether, or how far, `a` is renamed at its start. */
  lemma RenamesAround(a: string, b: string)
    ensures RenamesAtStart(a + "/" + b) <==> RenamesAtStart(a)
    ensures RenamesAtStart(a) ==> WordRun((a + "/" + b)[4..]) == WordRun(a[4..]) <= |a| - 4
  {
    var s := a + "/" + b;
    if |a| >= 4 {
      assert s[..4] == a[..4];
      assert s[4..] == a[4..] + "/" + b;
      WordRunAround(a[4..], b);
    } else if |s| >= 4 {
      assert s[..4][|a|] == '/';
    }
  }

  /** The first step of `PkgToTeam` on `a + "/" + b` when `a` is renamed at its start. */
  lemma RenameStepAround(a: string, b: string)
    requires RenamesAtStart(a)
    ensures var n := WordRun(a[4..]);
            4 + n <= |a| &&
            PkgToTeam(a) == a[4..4 + n] + "-team" + PkgToTeam(a[4 + n..]) &&
            PkgToTeam(a + "/" + b) == a[4..4 + n] + "-team" + PkgToTeam(a[4 + n..] + "/" + b)
  {
    var s := a + "/" + b;
    RenamesAround(a, b);
    var n := WordRun(a[4..]);
    assert s[4..4 + n] == a[4..4 + n];
    assert s[4 + n..] == a[4 + n..] + "/" + b;
  }

  /** The first step of `PkgToTeam` on `a + "/" + b` when `a` is not renamed at its start. */
  lemma CopyStepAround(a: string, b: string)
    requires a != [] && !RenamesAtStart(a)
    ensures PkgToTeam(a) == [a[0]] + PkgToTeam(a[1..])
    ensures PkgToTeam(a + "/" + b) == [a[0]] + PkgToTeam(a[1..] + "/" + b)
  {
    var s := a + "/" + b;
    RenamesAround(a, b);
    assert s[0] == a[0];
    assert s[1..] == a[1..] + "/" + b;
  }

  /** The `/` itself is never renamed. */
  lemma SlashStep(b: string)
    ensures PkgToTeam("/" + b) == "/" + PkgToTeam(b)
  {
    var s := "/" + b;
    assert s[0] == '/';
    assert !IsPrefix("pkg-", s);
    assert s[1..] == b;
  }

  /** The renaming case of `PkgToTeamAround`, given the claim for the rest of `a`. */
  lemma RenameCaseAround(a: string, b: string)
    requires RenamesAtStart(a)
    requires var t := a[4 + WordRun(a[4..])..];
             4 + WordRun(a[4..]) <= |a| &&
             PkgToTeam(t + "/" + b) == PkgToTeam(t) + "/" + PkgToTeam(b)
    ensures PkgToTeam(a + "/" + b) == PkgToTeam(a) + "/" + PkgToTeam(b)
  {
    RenameStepAround(a, b);
  }

  /** The copying case of `PkgToTeamAround`, given the claim for the rest of `a`. */
  lemma CopyCaseAround(a: string, b: string)
    requires a != [] && !RenamesAtStart(a)
    requires PkgToTeam(a[1..] + "/" + b) == PkgToTeam(a[1..]) + "/" + PkgToTeam(b)
    ensures PkgToTeam(a + "/" + b) == PkgToTeam(a) + "/" + PkgToTeam(b)
  {
    CopyStepAround(a, b);
  }

  /** No renaming crosses a `/`: path segments are renamed one by one. */
  lemma {:induction false} PkgToTeamAround(a: string, b: string)
    ensures PkgToTeam(a + "/" + b) == PkgToTeam(a) + "/" + PkgToTeam(b)
    decreases |a|
  {
    if a == [] {
      assert a + "/" + b == "/" + b;
      SlashStep(b);
    } else if RenamesAtStart(a) {
      RenamesAround(a, b);
      PkgToTeamAround(a[4 + WordRun(a[4..])..], b);
      RenameCaseAround(a, b);
    } else {
      PkgToTeamAround(a[1..], b);
      CopyCaseAround(a, b);
    }
  }

  /** A URL without `git://` is left alone by a salsa step for a `git://` host. */
  lemma GitHostAbsent(u: string, host: string)
    requires !Contains(u, "git://")
    requires IsPrefix("git://", host)
    ensures SalsaStep(u, host) == u
  {
    assert host == "git://" + host[6..];
    ContainsPart(u, "git://", host[6..]);
  }

  /** A URL on none of the retired hosts and without `pkg-` is used as it is. */
  lemma DebianRepoUrlKeeps(u: string)
    requires !Contains(u, "git://") && !Contains(u, "pkg-")
    ensures DebianRepoUrl(u) == u
  {
    GitHostAbsent(u, "git://git.debian.org/git");
    GitHostAbsent(u, "git://git.debian.org/users");
    GitHostAbsent(u, "git://anonscm.debian.org/users");
    GitHostAbsent(u, "git://git.debian.org");
    GitHostAbsent(u, "git://anonscm.debian.org");
    PkgToTeamAbsent(u);
  }

  /** A `git:` host does not occur in a salsa URL. */
  lemma SalsaStepKeeps(q: string, host: string)
    requires ':' !in q
    requires |host| > 3 && host[0] == 'g' && host[3] == ':'
    ensures SalsaStep(Salsa + "/" + q, host) == Salsa + "/" + q
  {
    SplitAt(Salsa + "/", "https", ':', "//salsa.debian.org/", q);
    var rest := "//salsa.debian.org/" + q;
    AbsentByAnchor("https", rest, ':', host, 3, 0);
  }

  /** After the rewrite to salsa, none of the later hosts matches. */
  lemma SalsaFinal(q: string)
    requires ':' !in q
    ensures var a := Salsa + "/" + q;
            SalsaStep(SalsaStep(SalsaStep(SalsaStep(a, "git://git.debian.org/users"),
              "git://anonscm.debian.org/users"), "git://git.debian.org"), "git://anonscm.debian.org") == a
  {
    SalsaStepKeeps(q, "git://git.debian.org/users");
    SalsaStepKeeps(q, "git://anonscm.debian.org/users");
    SalsaStepKeeps(q, "git://git.debian.org");
    SalsaStepKeeps(q, "git://anonscm.debian.org");
  }

  /** The salsa host holds no `.git`. */
  lemma SalsaNoGit(x: string)
    requires x == Salsa
    ensures Replace(x, ".git", "") == x
  {
    var h := "https://salsa.debian.or";
    assert x == h + ['g'] + "";
    AnchoredKeep(h, "", 'g', ".git", "", 1);
  }

  /** The salsa host holds no `pkg-`. */
  lemma SalsaNoPkg(x: string)
    requires x == Salsa
    ensures PkgToTeam(x) == x
  {
    AbsentByChar(x, "pkg-", 'k');
    PkgToTeamAbsent(x);
  }

  /** Below the salsa host, `.git` removal and renaming act on the path alone. */
  lemma SalsaClean(q: string)
    ensures Replace(Salsa + "/" + q, ".git", "") == Salsa + "/" + Replace(q, ".git", "")
    ensures PkgToTeam(Salsa + "/" + q) == Salsa + "/" + PkgToTeam(q)
  {
    assert Salsa + "/" + q == Salsa + ['/'] + q;
    ReplaceAround(Salsa, '/', q, ".git", "");
    PkgToTeamAround(Salsa, q);
    SalsaNoGit(Salsa);
    SalsaNoPkg(Salsa);
  }

  /**
   * A repository on the retired Alioth host moves to salsa, loses every
   * `.git`, and has its `pkg-X` segments renamed `X-team`.
   */
  lemma DebianAliothToSalsa(path: string)
    requires ':' !in path
    ensures DebianRepoUrl("git://git.debian.org/git/" + path)
         == Salsa + "/" + PkgToTeam(Replace(path, ".git", ""))
  {
    var host := "git://git.debian.org/git";
    var u := "git://git.debian.org/git/" + path;
    assert u == host + ("/" + path);
    assert IsPrefix(host, u);
    ReplacePrefix(host, "/" + path, Salsa);
    AbsentByChar("/" + path, host, ':');
    ReplaceAbsent("/" + path, host, Salsa);
    assert Salsa + ("/" + path) == Salsa + "/" + path;
    SalsaClean(path);
    var q := Replace(path, ".git", "");
    ReplaceKeepsOut(path, ".git", "", ':');
    assert SalsaStep(u, host) == Salsa + "/" + q;
    SalsaFinal(q);
    SalsaClean(q);
  }

  // -------------------------------------------------------------------- git

  /** How `git clone --no-checkout` into the temporary directory ends. */
  datatype CloneResult = TimedOut | Cloned(hasGit: bool)   // `hasGit`: a `.git` directory exists afterwards

  /**
   * The git oracle: how cloning a URL ends, and what `git rev-list -n 1 rev`
   * prints in the clone of a URL (`None` when it exits with an error).
   */
  datatype Git = Git(clone: string -> CloneResult, revList: (string, string) -> Option<string>)

  /** The git commands get_commit_sha runs. */
  datatype GitCommand = Clone(url: string) | RevList(rev: string)

  /** What get_commit_sha does: raise, or return a commit (possibly `None`). */
  datatype ShaResult = Raised | Sha(commit: Option<string>)

  /** The revisions get_commit_sha tries for a version, in order: the bare version, then `v` and the version. */
  function Tags(version: string): (tags: seq<string>)
    ensures |tags| == 2 && tags[0] == version && tags[1] == ['v'] + version
  {
    [version, "v" + version]
  }

  /** The stripped output of the first of `revs` that `rev-list` accepts. */
  function FirstHit(git: Git, url: string, revs: seq<string>): (r: Option<string>)
    ensures r.Some? <==> exists i :: 0 <= i < |revs| && git.revList(url, revs[i]).Some?
    ensures r.Some? ==> Stripped(r.value)
    decreases |revs|
  {
    if revs == [] then None
    else
      var out := git.revList(url, revs[0]);
      if out.Some? then Some(Strip(out.value))
      else
        var rest := FirstHit(git, url, revs[1..]);
        assert forall i :: 1 <= i < |revs| ==> revs[i] == revs[1..][i - 1];
        rest
  }

  /** The `rev-list` commands of a `FirstHit` search: one per revision up to the first accepted. */
  function Probes(git: Git, url: string, revs: seq<string>): (cmds: seq<GitCommand>)
    ensures |cmds| <= |revs| && (revs != [] ==> cmds != [])
    ensures forall i :: 0 <= i < |cmds| ==> cmds[i] == RevList(revs[i])
    ensures forall i :: 0 <= i < |cmds| - 1 ==> git.revList(url, revs[i]).None?
    ensures 0 < |cmds| < |revs| ==> git.revList(url, revs[|cmds| - 1]).Some?
    ensures cmds != [] ==>
              FirstHit(git, url, revs) == (var out := git.revList(url, revs[|cmds| - 1]);
                                           if out.Some? then Some(Strip(out.value)) else None)
    decreases |revs|
  {
    if revs == [] then []
    else if git.revList(url, revs[0]).Some? then [RevList(revs[0])]
    else
      var rest := Probes(git, url, revs[1..]);
      assert forall i :: 1 <= i < |revs| ==> revs[i] == revs[1..][i - 1];
      assert rest == [] ==> FirstHit(git, url, revs) == None;
      [RevList(revs[0])] + rest
  }

  /** get_commit_sha, cloning the URL its rewrites give as written. */
  function CommitSha(git: Git, repo: Option<string>, version: Option<string>): (r: ShaResult)
    ensures r.Raised? <==> repo.Some? && git.clone(CloneUrlAsWritten(repo.value)) == Cloned(true) && version.None?
    ensures r.Sha? && r.commit.Some? ==>
              repo.Some? && git.clone(CloneUrlAsWritten(repo.value)) == Cloned(true) && version.Some?
  {
    if repo.None? then Sha(None)
    else
      var url := CloneUrlAsWritten(repo.value);
      if git.clone(url) != Cloned(true) then Sha(None)
      else if version.None? then Raised      // the revision argument is None: TypeError
      else Sha(FirstHit(git, url, Tags(version.value)))
  }

  /** The git commands get_commit_sha runs. */
  function ShaCommands(git: Git, repo: Option<string>, version: Option<string>): seq<GitCommand> {
    if repo.None? then []
    else
      var url := CloneUrlAsWritten(repo.value);
      if git.clone(url) != Cloned(true) || version.None? then [Clone(url)]
      else [Clone(url)] + Probes(git, url, Tags(version.value))
  }

  /** A tag named by the bare version wins over the `v`-prefixed one. */
  lemma BareTagFirst(git: Git, repo: string, v: string, out: string)
    requires git.clone(CloneUrlAsWritten(repo)) == Cloned(true)
    requires git.revList(CloneUrlAsWritten(repo), v) == Some(out)
    ensures CommitSha(git, Some(repo), Some(v)) == Sha(Some(Strip(out)))
    ensures ShaCommands(git, Some(repo), Some(v)) == [Clone(CloneUrlAsWritten(repo)), RevList(v)]
  {
  }

  /** Only when the bare version is unknown is `v` and the version tried. */
  lemma PrefixedTagSecond(git: Git, repo: string, v: string)
    requires git.clone(CloneUrlAsWritten(repo)) == Cloned(true)
    requires git.revList(CloneUrlAsWritten(repo), v).None?
    ensures var out := git.revList(CloneUrlAsWritten(repo), "v" + v);
            CommitSha(git, Some(repo), Some(v)) == Sha(if out.Some? then Some(Strip(out.value)) else None)
    ensures ShaCommands(git, Some(repo), Some(v)) == [Clone(CloneUrlAsWritten(repo)), RevList(v), RevList("v" + v)]
  {
    var url := CloneUrlAsWritten(repo);
    var t := Tags(v);
    assert t[1..] == ["v" + v];
    assert t[1..][1..] == [];
    assert FirstHit(git, url, t) == FirstHit(git, url, ["v" + v]);
    assert Probes(git, url, t) == [RevList(v)] + Probes(git, url, ["v" + v]);
  }

  /** A commit comes from a clone and a revision `rev-list` accepted; it never has surrounding white space. */
  lemma CommitShaSource(git: Git, repo: Option<string>, version: Option<string>, commit: string)
    requires CommitSha(git, repo, version) == Sha(Some(commit))
    ensures exists i :: 0 <= i < 2 && git.revList(CloneUrlAsWritten(repo.value), Tags(version.value)[i]).Some?
    ensures Stripped(commit)
  {
  }

  // --------------------------------------------------------------- lookups

  /** The result of getCommitFromPurl: an exception, or the repository URL and commit it returns. */
  datatype Origin = Failed | Found(repo: Option<string>, commit: Option<string>)

  /** getCommitFromPurl: the registry lookup, then get_commit_sha when the lookup asks for it. */
  function OriginOf(reg: Registry, git: Git, ty: Option<string>, ns: Option<string>, name: string,
                    version: Option<string>): Origin
  {
    match RegistryLookup(reg, ParseType(ty), ns, name, version)
    case Raises => Failed
    case Done(repo, commit) => Found(repo, commit)
    case Probe(repo, v) =>
      match CommitSha(git, repo, v)
      case Raised => Failed
      case Sha(commit) => Found(repo, commit)
  }

  /** The git commands getCommitFromPurl runs. */
  function OriginCommands(reg: Registry, git: Git, ty: Option<string>, ns: Option<string>, name: string,
                          version: Option<string>): seq<GitCommand>
  {
    match RegistryLookup(reg, ParseType(ty), ns, name, version)
    case Probe(repo, v) => ShaCommands(git, repo, v)
    case _ => []
  }

  /** A missing, empty or unsupported type yields no URL and no commit, and runs no git command. */
  lemma OriginUnknownType(reg: Registry, git: Git, ty: Option<string>, ns: Option<string>, name: string,
                          version: Option<string>)
    requires !ParseType(ty).Known?
    ensures OriginOf(reg, git, ty, ns, name, version) == Found(None, None)
    ensures OriginCommands(reg, git, ty, ns, name, version) == []
  {
  }

  /**
   * The Go module proxy reports the commit itself: git is never run for
   * `golang`, and the lookup raises only when the proxy cannot be reached
   * or its 200 reply is not JSON.
   */
  lemma OriginGolangNoGit(reg: Registry, git: Git, ns: Option<string>, name: string, version: Option<string>)
    ensures OriginCommands(reg, git, Some("golang"), ns, name, version) == []
    ensures var a := reg(GoInfo(ns, name, version));
            OriginOf(reg, git, Some("golang"), ns, name, version).Failed? <==>
              a.Unreachable? || (a.status == 200 && !a.parses)
  {
  }

  /** A Maven package without a group makes getCommitFromPurl raise. */
  lemma OriginMavenNoGroup(reg: Registry, git: Git, name: string, version: Option<string>)
    ensures OriginOf(reg, git, Some("maven"), None, name, version) == Failed
  {
    assert ParseType(Some("maven")) == Known(Maven);
  }

  /**
   * getCommitFromPurl raises either in its registry lookup (see
   * `LookupRaises`), before any git command, or after one clone, when a
   * repository was cloned and there is no version to look up.
   */
  lemma OriginFails(reg: Registry, git: Git, ty: Option<string>, ns: Option<string>, name: string,
                    version: Option<string>)
    requires OriginOf(reg, git, ty, ns, name, version) == Failed
    ensures var cmds := OriginCommands(reg, git, ty, ns, name, version);
            (RegistryLookup(reg, ParseType(ty), ns, name, version).Raises? && cmds == []) ||
            (version.None? && |cmds| == 1 && cmds[0].Clone?)
  {
    var l := RegistryLookup(reg, ParseType(ty), ns, name, version);
    assert l.Probe? ==> l.version == version;
  }

  /** A registry that cannot be reached makes every known type raise, before any git command. */
  lemma OriginUnreachable(reg: Registry, git: Git, ty: Option<string>, ns: Option<string>, name: string,
                          version: Option<string>)
    requires ParseType(ty).Known?
    requires forall q :: reg(q).Unreachable?
    ensures OriginOf(reg, git, ty, ns, name, version) == Failed
    ensures OriginCommands(reg, git, ty, ns, name, version) == []
  {
  }

  /** A commit not reported by the Go proxy came from `rev-list` for the version, stripped. */
  lemma OriginCommitFromGit(reg: Registry, git: Git, ty: Option<string>, ns: Option<string>, name: string,
                            version: Option<string>, repo: Option<string>, commit: string)
    requires OriginOf(reg, git, ty, ns, name, version) == Found(repo, Some(commit))
    requires ty != Some("golang")
    ensures version.Some? && repo.Some? && Stripped(commit)
    ensures git.revList(CloneUrlAsWritten(repo.value), version.value).Some? ||
            git.revList(CloneUrlAsWritten(repo.value), "v" + version.value).Some?
  {
    var l := RegistryLookup(reg, ParseType(ty), ns, name, version);
    assert l.Probe? && l.version == version && l.repo == repo;
    CommitShaSource(git, repo, version, commit);
  }

  // -------------------------------------------------------------- workspace

  /**
   * The process state get_commit_sha touches: the current directory, and the
   * git commands run so far.
   */
  class Workspace {
    const git: Git
    var cwd: string
    var commands: seq<GitCommand>

    constructor (git: Git, cwd: string)
      ensures this.git == git && this.cwd == cwd && commands == []
    {
      this.git := git;
      this.cwd := cwd;
      commands := [];
    }

    /** Runs one git command. */
    method Run(c: GitCommand)
      modifies this
      ensures commands == old(commands) + [c] && cwd == old(cwd)
    {
      commands := commands + [c];
    }

    /**
     * get_commit_sha, cloning into `tempDir`. The directory is restored on
     * every return; when it raises, the process is left in `tempDir`.
     */
    method GetCommitSha(repo: Option<string>, version: Option<string>, tempDir: string) returns (r: ShaResult)
      modifies this
      ensures r == CommitSha(git, repo, version)
      ensures commands == old(commands) + ShaCommands(git, repo, version)
      ensures cwd == if r.Raised? then tempDir else old(cwd)
    {
      if repo.None? {
        return Sha(None);
      }
      var saved := cwd;
      var url := CloneUrlAsWritten(repo.value);
      Run(Clone(url));
      var cloned := git.clone(url);
      if cloned.TimedOut? {
        cwd := saved;
        return Sha(None);
      }
      cwd := tempDir;
      if !cloned.hasGit {
        cwd := saved;
        return Sha(None);
      }
      if version.None? {
        return Raised;
      }
      var sha := RevParse(url, version.value);
      cwd := saved;
      r := Sha(sha);
    }

    /** The `rev-list` probes of get_commit_sha: the bare version, then `v` and the version. */
    method RevParse(url: string, v: string) returns (sha: Option<string>)
      modifies this
      ensures sha == FirstHit(git, url, Tags(v))
      ensures commands == old(commands) + Probes(git, url, Tags(v)) && cwd == old(cwd)
    {
      sha := None;
      Run(RevList(v));
      var out := git.revList(url, v);
      if out.Some? {
        sha := Some(Strip(out.value));
      }
      if sha.None? {
        Run(RevList("v" + v));
        out := git.revList(url, "v" + v);
        if out.Some? {
          sha := Some(Strip(out.value));
        }
        assert Tags(v)[1..] == ["v" + v];
        assert Tags(v)[1..][1..] == [];
      }
    }

    /** getCommitFromPurl. */
    method CommitFromPurl(reg: Registry, ty: Option<string>, ns: Option<string>, name: string,
                          version: Option<string>, tempDir: string) returns (o: Origin)
      modifies this
      ensures o == OriginOf(reg, git, ty, ns, name, version)
      ensures commands == old(commands) + OriginCommands(reg, git, ty, ns, name, version)
      ensures RegistryLookup(reg, ParseType(ty), ns, name, version).Raises? ==> o.Failed? && cwd == old(cwd)
      ensures o.Failed? && !RegistryLookup(reg, ParseType(ty), ns, name, version).Raises? ==> cwd == tempDir
      ensures o.Found? ==> cwd == old(cwd)
    {
      var l := RegistryLookup(reg, ParseType(ty), ns, name, version);
      match l
      case Raises =>
        o := Failed;
      case Done(repo, commit) =>
        o := Found(repo, commit);
      case Probe(repo, v) =>
        var sha := GetCommitSha(repo, v, tempDir);
        o := if sha.Raised? then Failed else Found(repo, sha.commit);
    }
  }
}
