/**
 * `create_compver`: registering a package, named by its package URL (purl),
 * as a component of the catalog, and recording where its source lives.
 *
 * The purl's parts give a domain under `GLOBAL.Open Source` and a component
 * name; when the database holds no such component, the base component and
 * the version are created, the package's repository and commit are looked up
 * (`getCommitFromPurl`), and the git attributes derived from the repository
 * URL are posted to the new component.
 *
 * Parsing the purl is a parameter (`PackageURL.from_string` is a library
 * call), and so is the database's answer to the count query.
 */
module Provenance {
  import opened Wrappers
  import opened Text
  import opened Names
  import opened Catalog
  import opened Origin

  /** The parts of a parsed purl that create_compver reads. */
  datatype Purl = Purl(ty: string, namespace: Option<string>, name: string, version: Option<string>)

  // ----------------------------------------------------------------- domain

  const DomainRoot: string := "GLOBAL.Open Source."

  /** The domain before its characters are fixed: the type, then the namespace with `.` made `_`. */
  function DomainPath(ty: string, ns: Option<string>): string {
    if ns.None? then ty else ty + "." + Replace(ns.value, ".", "_")
  }

  /** The domain's character fixes, in order: `/` to `.`, `-` and `+` to `_`, `@` removed. */
  function DomainFix(s: string): string {
    var a := Replace(s, "/", ".");
    var b := Replace(a, "-", "_");
    var c := Replace(b, "+", "_");
    Replace(c, "@", "")
  }

  /** The domain of a purl's component. */
  function Domain(p: Purl): string {
    DomainFix(DomainRoot + DomainPath(p.ty, p.namespace))
  }

  /** The characters a domain never holds. */
  const DomainRemoved: string := "/-+@"

  /** The fixes work piece by piece. */
  lemma DomainFixConcat(x: string, y: string)
    ensures DomainFix(x + y) == DomainFix(x) + DomainFix(y)
  {
    ReplaceCharConcat(x, y, '/', ".");
    var a := Replace(x, "/", ".");
    var a' := Replace(y, "/", ".");
    ReplaceCharConcat(a, a', '-', "_");
    var b := Replace(a, "-", "_");
    var b' := Replace(a', "-", "_");
    ReplaceCharConcat(b, b', '+', "_");
    var c := Replace(b, "+", "_");
    var c' := Replace(b', "+", "_");
    ReplaceCharConcat(c, c', '@', "");
  }

  /** A string without the fixed characters is left alone. */
  lemma DomainFixKeeps(s: string)
    requires '/' !in s && '-' !in s && '+' !in s && '@' !in s
    ensures DomainFix(s) == s
  {
    ContainsChar(s, '/');
    ReplaceAbsent(s, "/", ".");
    ContainsChar(s, '-');
    ReplaceAbsent(s, "-", "_");
    ContainsChar(s, '+');
    ReplaceAbsent(s, "+", "_");
    ContainsChar(s, '@');
    ReplaceAbsent(s, "@", "");
  }

  /** The root holds none of the fixed characters. */
  lemma RootFixed()
    ensures DomainFix(DomainRoot) == DomainRoot
  {
    assert '/' !in DomainRoot && '-' !in DomainRoot && '+' !in DomainRoot && '@' !in DomainRoot;
    DomainFixKeeps(DomainRoot);
  }

  /** A period is kept by the fixes. */
  lemma DotFixed()
    ensures DomainFix(".") == "."
  {
    DomainFixKeeps(".");
  }

  /** After the fixes none of the fixed characters is left. */
  lemma DomainFixShape(s: string)
    ensures forall c :: c in DomainRemoved ==> c !in DomainFix(s)
  {
    var a := Replace(s, "/", ".");
    var b := Replace(a, "-", "_");
    var c := Replace(b, "+", "_");
    ReplaceCharGone(s, '/', ".");
    ReplaceKeepsOut(a, "-", "_", '/');
    ReplaceKeepsOut(b, "+", "_", '/');
    ReplaceKeepsOut(c, "@", "", '/');
    ReplaceCharGone(a, '-', "_");
    ReplaceKeepsOut(b, "+", "_", '-');
    ReplaceKeepsOut(c, "@", "", '-');
    ReplaceCharGone(b, '+', "_");
    ReplaceKeepsOut(c, "@", "", '+');
    ReplaceCharGone(c, '@', "");
  }

  /**
   * Every domain lies under `GLOBAL.Open Source.`, followed by the fixed
   * type and namespace, and holds none of `/ - + @`.
   */
  lemma DomainShape(p: Purl)
    ensures Domain(p) == DomainRoot + DomainFix(DomainPath(p.ty, p.namespace))
    ensures IsPrefix(DomainRoot, Domain(p))
    ensures forall c :: c in DomainRemoved ==> c !in Domain(p)
  {
    DomainFixConcat(DomainRoot, DomainPath(p.ty, p.namespace));
    RootFixed();
    DomainFixShape(DomainRoot + DomainPath(p.ty, p.namespace));
  }

  /**
   * A namespace's periods do not make domain levels: they become `_`, and
   * only its slashes become `.`.
   */
  lemma NamespaceLevels(ty: string, ns: string)
    ensures DomainFix(DomainPath(ty, Some(ns))) == DomainFix(ty) + "." + DomainFix(Replace(ns, ".", "_"))
    ensures '.' !in Replace(ns, ".", "_")
  {
    DomainFixConcat(ty + ".", Replace(ns, ".", "_"));
    DomainFixConcat(ty, ".");
    DotFixed();
    ReplaceCharGone(ns, '.', "_");
  }

  // ------------------------------------------------------------------- names

  /** The name the count query looks for: the cleaned name, and `;` and the version when there is one. */
  function QueryName(p: Purl): string {
    if p.version.None? then CleanText(Replace(p.name, ".", "_"))
    else CleanText(Replace(p.name, ".", "_") + ";" + p.version.value)
  }

  /** The version of the created component: the cleaned purl version, or "". */
  function VersionName(p: Purl): string {
    if p.version.None? then "" else CleanText(p.version.value)
  }

  /** The package part of the component name: the cleaned name with periods made `_`. */
  function Package(p: Purl): string {
    Replace(CleanText(p.name), ".", "_")
  }

  /** The component create_compver creates: the domain, a period, and the package. */
  function PurlComponent(p: Purl): string {
    Domain(p) + "." + Package(p)
  }

  /** The count query's name is the cleaned name, qualified by the cleaned version. */
  lemma QueryNameQualified(p: Purl)
    ensures QueryName(p) == CleanText(p.name) + (if p.version.Some? then ";" + VersionName(p) else "")
  {
    var n := Replace(p.name, ".", "_");
    CleanIsCharwise(p.name);
    CleanCharsDots(p.name);
    if p.version.None? {
      CleanIsCharwise(n);
    } else {
      var v := p.version.value;
      CleanIsCharwise(n + ";" + v);
      CleanIsCharwise(v);
      Reassociate(n, ";", v);
      CleanCharsConcat(n, ";" + v);
      CleanCharsConcat(";", v);
      SemicolonKept();
    }
  }

  /**
   * The package holds no period, so it is the component name's last
   * dot-segment: the name the catalog compares lookups against.
   */
  lemma PackageIsShortName(p: Purl)
    ensures '.' !in Package(p)
    ensures ShortName(PurlComponent(p)) == Package(p)
    ensures RenameBase(PurlComponent(p)) == Package(p)
  {
    ReplaceCharGone(CleanText(p.name), '.', "_");
    assert PurlComponent(p) == Domain(p) + ['.'] + Package(p);
    LastSegmentAfter(Domain(p), Package(p), '.');
  }

  /**
   * The first lookup asks for the component by its bare name (blank
   * qualifiers are dropped) and compares the answer with the package.
   */
  lemma FirstLookupIsBare(p: Purl)
    ensures LookupCall(PurlComponent(p), Some(""), Some(""), true, true) == FindComponent(PurlComponent(p), true, true)
    ensures LookupCheck(PurlComponent(p), Some(""), Some("")) == Package(p)
  {
    assert CleanName(Some("")) == Some("");
    PackageIsShortName(p);
  }

  // -------------------------------------------------------------- attributes

  predicate IsSlash(c: char) { c == '/' }

  /** The path segments of a repository URL: stripped of `/`, the scheme removed, split at `/`. */
  function PathSegments(u: string): seq<string> {
    Split(Replace(Replace(Trim(u, IsSlash), "https://", ""), "http://", ""), '/')
  }

  /** Whether create_compver derives attributes from a repository URL: it is there and not empty. */
  predicate HasUrl(url: Option<string>) {
    url.Some? && url.value != ""
  }

  /** What create_compver derives from a repository URL. */
  datatype Link = Link(purl: string, url: string, org: string, project: string, tag: Option<string>)

  /** The attributes create_compver gathers: the commit, and what the repository URL gives. */
  datatype GitAttributes = GitAttributes(commit: Option<string>, link: Option<Link>)

  /** The URL's part of the attributes: `.git` removed, then path segments one and two. */
  function LinkOf(purl: string, version: Option<string>, url: string): Link {
    var u := Replace(url, ".git", "");
    var segs := PathSegments(u);
    var org := if |segs| >= 3 then segs[1] else "";
    var project := if |segs| >= 3 then segs[2] else "";
    Link(purl, u, org, project, version)
  }

  /** The attributes create_compver gathers for a purl, its version, the repository URL and the commit. */
  function GitAttrs(purl: string, version: Option<string>, url: Option<string>, commit: Option<string>)
    : GitAttributes
  {
    GitAttributes(commit, if HasUrl(url) then Some(LinkOf(purl, version, url.value)) else None)
  }

  /** The keys of the `attrs` dict. */
  const CommitKey: string := "GitCommit"
  const PurlKey: string := "Purl"
  const UrlKey: string := "GitUrl"
  const OrgKey: string := "GitOrg"
  const RepoKey: string := "GitRepo"
  const ProjectKey: string := "GitRepoProject"
  const TagKey: string := "GitTag"

  /** The `attrs` dict holding the attributes, as posted to the catalog. */
  function AsMap(a: GitAttributes): map<string, string> {
    if a.commit.Some? then WithLink(map[CommitKey := a.commit.value], a.link) else WithLink(map[], a.link)
  }

  /** `m` with the keys a link gives. */
  function WithLink(m: map<string, string>, link: Option<Link>): map<string, string> {
    match link
    case None => m
    case Some(l) =>
      var m' := m[PurlKey := l.purl][UrlKey := l.url][OrgKey := l.org]
                 [RepoKey := l.org + "/" + l.project][ProjectKey := l.project];
      if l.tag.Some? then m'[TagKey := l.tag.value] else m'
  }

  /** The keys create_compver may set. */
  const AttrKeys: set<string> := {CommitKey, PurlKey, UrlKey, OrgKey, RepoKey, ProjectKey, TagKey}

  /**
   * The dict's keys: `GitCommit` exactly when there is a commit, `GitTag`
   * exactly when there is a URL and a tag, the other five exactly when
   * there is a URL; `GitRepo` is the organisation, a `/` and the project.
   */
  lemma AsMapKeys(a: GitAttributes)
    ensures var m := AsMap(a);
            m.Keys <= AttrKeys &&
            (CommitKey in m <==> a.commit.Some?) &&
            (a.commit.Some? ==> m[CommitKey] == a.commit.value) &&
            (TagKey in m <==> a.link.Some? && a.link.value.tag.Some?) &&
            (PurlKey in m <==> a.link.Some?) && (RepoKey in m <==> a.link.Some?)
    ensures var m := AsMap(a);
            a.link.Some? ==>
              UrlKey in m && OrgKey in m && ProjectKey in m &&
              m[PurlKey] == a.link.value.purl && m[UrlKey] == a.link.value.url &&
              m[OrgKey] == a.link.value.org && m[ProjectKey] == a.link.value.project &&
              m[RepoKey] == m[OrgKey] + "/" + m[ProjectKey] &&
              (a.link.value.tag.Some? ==> m[TagKey] == a.link.value.tag.value)
  {
  }

  /**
   * What is gathered: the commit as found; the link exactly when there is a
   * URL, with the purl, and a tag exactly when the purl has a version; the
   * organisation and project hold no `/`.
   */
  lemma GitAttrsShape(purl: string, version: Option<string>, url: Option<string>, commit: Option<string>)
    ensures var a := GitAttrs(purl, version, url, commit);
            a.commit == commit &&
            (a.link.Some? <==> HasUrl(url)) &&
            (a.link.Some? ==> a.link.value.purl == purl && a.link.value.tag == version &&
                              '/' !in a.link.value.org && '/' !in a.link.value.project)
  {
  }

  /** A URL with fewer than three path segments gives an empty organisation and project. */
  lemma ShortPathLink(purl: string, version: Option<string>, url: string)
    requires |PathSegments(Replace(url, ".git", ""))| < 3
    ensures LinkOf(purl, version, url).org == "" && LinkOf(purl, version, url).project == ""
  {
  }

  /** The segments of `host/org/repo`, when none of them holds a `/`. */
  lemma SegmentsOf(host: string, org: string, repo: string)
    requires '/' !in host && '/' !in org && '/' !in repo
    ensures Split(host + "/" + org + "/" + repo, '/') == [host, org, repo]
  {
    assert host + "/" + org + "/" + repo == host + ['/'] + (org + ['/'] + repo);
    SplitAfter(host, org + ['/'] + repo, '/');
    SplitAfter(org, repo, '/');
    SplitFree(repo, '/');
  }

  const HttpsScheme: string := "https://"
  const HttpScheme: string := "http://"

  /** Both scheme removals on an `https://` URL whose path holds no `:`. */
  lemma HttpsStripped(path: string)
    requires ':' !in path
    ensures Replace(Replace(HttpsScheme + path, HttpsScheme, ""), HttpScheme, "") == path
  {
    ReplaceLeading(HttpsScheme, path, "", ':');
    assert "" + path == path;
    AbsentByChar(path, HttpScheme, ':');
    ReplaceAbsent(path, HttpScheme, "");
  }

  /** Both scheme removals on an `http://` URL whose path holds no `:`. */
  lemma HttpStripped(path: string)
    requires ':' !in path
    ensures Replace(Replace(HttpScheme + path, HttpsScheme, ""), HttpScheme, "") == path
  {
    AnchoredKeepAt(HttpScheme, "http", ':', "//", path, HttpsScheme, "", 5);
    ReplaceLeading(HttpScheme, path, "", ':');
    assert "" + path == path;
  }

  /** The path segments of `scheme` followed by `host/org/repo`, for either scheme. */
  lemma UrlSegments(scheme: string, host: string, org: string, repo: string)
    requires scheme == HttpsScheme || scheme == HttpScheme
    requires '/' !in host && '/' !in org && '/' !in repo && repo != []
    requires ':' !in host && ':' !in org && ':' !in repo
    ensures PathSegments(scheme + (host + "/" + org + "/" + repo)) == [host, org, repo]
  {
    var path := host + "/" + org + "/" + repo;
    var u := scheme + path;
    assert u[0] == scheme[0] == 'h';
    assert u[|u| - 1] == repo[|repo| - 1] && repo[|repo| - 1] in repo;
    TrimKept(u, IsSlash);
    assert ':' !in path;
    if scheme == HttpsScheme {
      HttpsStripped(path);
    } else {
      HttpStripped(path);
    }
    SegmentsOf(host, org, repo);
  }

/**
   * For a repository at `https://host/org/repo` or `http://host/org/repo`
   * (after `.git` removal), the organisation and project are `org` and `repo`.
   */
  lemma OrgAndProject(purl: string, version: Option<string>, url: string,
                      scheme: string, host: string, org: string, repo: string)
    requires scheme == HttpsScheme || scheme == HttpScheme
    requires '/' !in host && '/' !in org && '/' !in repo && repo != []
    requires ':' !in host && ':' !in org && ':' !in repo
    requires Replace(url, ".git", "") == scheme + (host + "/" + org + "/" + repo)
    ensures LinkOf(purl, version, url).org == org && LinkOf(purl, version, url).project == repo
  {
    UrlSegments(scheme, host, org, repo);
    var segs := PathSegments(Replace(url, ".git", ""));
    assert segs == [host, org, repo];
    assert segs[1] == org && segs[2] == repo;
  }

  /** create_compver's filling of `attrs`, one key at a time. */
  method FillAttrs(purl: string, version: Option<string>, url: Option<string>, commit: Option<string>)
    returns (attrs: map<string, string>)
    ensures attrs == AsMap(GitAttrs(purl, version, url, commit))
  {
    attrs := map[];
    if commit.Some? {
      attrs := attrs[CommitKey := commit.value];
    }
    if url.Some? && url.value != "" {
      attrs := AddLink(attrs, LinkOf(purl, version, url.value));
    }
  }

  /** The keys a link gives, added to `m` one at a time. */
  method AddLink(m: map<string, string>, l: Link) returns (attrs: map<string, string>)
    ensures attrs == WithLink(m, Some(l))
  {
    attrs := m[PurlKey := l.purl];
    attrs := attrs[UrlKey := l.url];
    attrs := attrs[OrgKey := l.org];
    attrs := attrs[RepoKey := l.org + "/" + l.project];
    attrs := attrs[ProjectKey := l.project];
    if l.tag.Some? {
      attrs := attrs[TagKey := l.tag.value];
    }
  }

  // ---------------------------------------------------------------- creation

  /**
   * The catalog requests that make sure the base component `name` exists:
   * its id-only lookup, and its creation when the lookup finds nothing.
   */
  function BaseCalls(o: Oracle, h: seq<Call>, name: string): seq<Call> {
    var look := Lookup(o, h, name, Some(""), Some(""), true, true);
    look.calls + (if look.value.id < 0 then ResolveTrace(o, h + look.calls, name, "", Some(""), "file", None, None).calls
                  else [])
  }

  /**
   * The catalog requests of the creation step for component `name` and
   * version `version`: the base component, the creation of the version,
   * and the lookup of the new component's full name, which is the value.
   */
  function Provision(o: Oracle, h: seq<Call>, name: string, version: string): Trace<string> {
    var base := BaseCalls(o, h, name);
    var made := ResolveTrace(o, h + base, name, version, Some(""), "file", None, None);
    var named := NameTrace(o, h + base + made.calls, made.value);
    Trace(base + made.calls + named.calls, named.value)
  }

  /** The attributes posted for an origin: only when a repository URL was found. */
  function Posted(purl: string, p: Purl, origin: Origin): Option<GitAttributes> {
    if origin.Found? && HasUrl(origin.repo) then Some(GitAttrs(purl, p.version, origin.repo, origin.commit))
    else None
  }

  /** How create_compver ends. */
  datatype Creation =
    | NoPurl                       // the purl is missing or blank
    | BadPurl                      // the purl does not parse: the exception leaves create_compver
    | QueryFailed                  // the count query raised
    | Listed                       // a component of that name is already in the domain
    | Made(name: string, origin: Origin, posted: Option<GitAttributes>)

  /** Python's `purl is None or purl.strip() == ""`. */
  predicate BlankPurl(purl: Option<string>) {
    purl.None? || Strip(purl.value) == ""
  }

  /** Where create_compver's checks leave it: stopped, or going on to create the component of a purl. */
  datatype Gate = Stop(ending: Creation) | Go(purl: string, p: Purl)

  /**
   * create_compver's checks before anything is created: the purl is there
   * and not blank, it parses, and the count query finds no component of
   * that name in that domain.
   */
  function Admit(parse: string -> Option<Purl>, components: (string, string) -> Option<nat>,
                 purl: Option<string>): (g: Gate)
    ensures g.Stop? ==> !g.ending.Made?
    ensures g.Go? <==> !BlankPurl(purl) && parse(purl.value).Some? &&
                       components(Domain(parse(purl.value).value), QueryName(parse(purl.value).value)) == Some(0)
    ensures g.Go? ==> purl == Some(g.purl) && parse(g.purl) == Some(g.p)
  {
    if BlankPurl(purl) then Stop(NoPurl)
    else if parse(purl.value).None? then Stop(BadPurl)
    else
      var p := parse(purl.value).value;
      var count := components(Domain(p), QueryName(p));
      if count.None? then Stop(QueryFailed)
      else if count.value != 0 then Stop(Listed)
      else Go(purl.value, p)
  }

  /** The origin create_compver finds for a purl. */
  function OriginOfPurl(reg: Registry, git: Git, p: Purl): Origin {
    OriginOf(reg, git, Some(p.ty), p.namespace, p.name, p.version)
  }

  /** The catalog requests after the creation step: the attribute update, when there is something to post. */
  function UpdateCalls(o: Oracle, h: seq<Call>, name: string, posted: Option<GitAttributes>): seq<Call> {
    if posted.Some? then AttrsTrace(o, h, name, Some(""), Some(""), AsMap(posted.value)).calls else []
  }

  /** The catalog requests of a creation that passed the checks, and its outcome. */
  function MadeTrace(o: Oracle, h: seq<Call>, reg: Registry, git: Git, purl: string, p: Purl): Trace<Creation> {
    var t := Provision(o, h, PurlComponent(p), VersionName(p));
    var origin := OriginOfPurl(reg, git, p);
    var posted := Posted(purl, p, origin);
    Trace(t.calls + UpdateCalls(o, h + t.calls, t.value, posted), Made(t.value, origin, posted))
  }

  /** The catalog requests create_compver sends and how it ends. */
  function CompverTrace(o: Oracle, h: seq<Call>, reg: Registry, git: Git, parse: string -> Option<Purl>,
                        components: (string, string) -> Option<nat>, purl: Option<string>): Trace<Creation>
  {
    match Admit(parse, components, purl)
    case Stop(ending) => Trace([], ending)
    case Go(s, p) => MadeTrace(o, h, reg, git, s, p)
  }

  /** The git commands create_compver runs. */
  function CompverCommands(reg: Registry, git: Git, parse: string -> Option<Purl>,
                           components: (string, string) -> Option<nat>, purl: Option<string>): seq<GitCommand>
  {
    match Admit(parse, components, purl)
    case Stop(_) => []
    case Go(_, p) => OriginCommands(reg, git, Some(p.ty), p.namespace, p.name, p.version)
  }

  /** Nothing is sent to the catalog, and git is not run, unless the component is new. */
  lemma NothingUnlessNew(o: Oracle, h: seq<Call>, reg: Registry, git: Git, parse: string -> Option<Purl>,
                         components: (string, string) -> Option<nat>, purl: Option<string>)
    requires BlankPurl(purl) || parse(purl.value).None? ||
             components(Domain(parse(purl.value).value), QueryName(parse(purl.value).value)) != Some(0)
    ensures CompverTrace(o, h, reg, git, parse, components, purl).calls == []
    ensures CompverCommands(reg, git, parse, components, purl) == []
    ensures !CompverTrace(o, h, reg, git, parse, components, purl).value.Made?
  {
  }

  /**
   * Attributes are posted exactly when a repository URL was found, with the
   * commit found beside it; a commit is never posted without a URL.
   */
  lemma PostedOnlyWithUrl(purl: string, p: Purl, origin: Origin)
    ensures var posted := Posted(purl, p, origin);
            (posted.Some? <==> origin.Found? && HasUrl(origin.repo)) &&
            (posted.Some? ==> posted.value.commit == origin.commit && posted.value.link.Some? &&
                              posted.value.link.value.purl == purl && posted.value.link.value.tag == p.version)
  {
  }

  /**
   * Once the checks pass a component is always made, with the origin found
   * for the purl; the creation requests come first, and nothing follows them
   * when there is nothing to post.
   */
  lemma CreationFirst(o: Oracle, h: seq<Call>, reg: Registry, git: Git, purl: string, p: Purl)
    ensures var t := MadeTrace(o, h, reg, git, purl, p);
            var made := Provision(o, h, PurlComponent(p), VersionName(p));
            t.value.Made? && t.value.name == made.value && t.value.origin == OriginOfPurl(reg, git, p) &&
            made.calls <= t.calls &&
            (t.value.posted.None? ==> t.calls == made.calls)
  {
  }

  /** The base component of the creation step: looked up, and created when missing. */
  method EnsureBase(client: CatalogClient, compname: string)
    modifies client
    ensures client.log == old(client.log) + BaseCalls(client.oracle, old(client.log), compname)
  {
    ghost var h0 := client.log;
    var data := client.GetComponent(compname, Some(""), Some(""), true, true);
    var parent := data.id;
    if parent < 0 {
      ghost var h1 := client.log;
      parent := client.NewComponentVersion(compname, "", Some(""), "file", None, None);
      Regroup(h0, h1[|h0|..], client.log[|h1|..]);
    }
  }

  /** The creation step of create_compver: the base component, the version, and its full name. */
  method Provide(client: CatalogClient, compname: string, version: string) returns (name: string)
    modifies client
    ensures var t := Provision(client.oracle, old(client.log), compname, version);
            client.log == old(client.log) + t.calls && name == t.value
  {
    ghost var h0 := client.log;
    EnsureBase(client, compname);
    ghost var h1 := client.log;
    var compid := client.NewComponentVersion(compname, version, Some(""), "file", None, None);
    ghost var h2 := client.log;
    name := client.GetComponentName(compid);
    Regroup(h0, h1[|h0|..], h2[|h1|..]);
    Regroup(h0 + h1[|h0|..] + h2[|h1|..], client.log[|h2|..], []);
  }

  /** The attribute step of create_compver: post the attributes when a repository URL was found. */
  method Annotate(client: CatalogClient, name: string, purl: string, p: Purl, origin: Origin)
    returns (posted: Option<GitAttributes>)
    modifies client
    ensures posted == Posted(purl, p, origin)
    ensures client.log == old(client.log) + UpdateCalls(client.oracle, old(client.log), name, posted)
  {
    posted := None;
    if origin.Found? && origin.repo.Some? && origin.repo.value != "" {
      var attrs := FillAttrs(purl, p.version, origin.repo, origin.commit);
      var _ := client.UpdateComponentAttrs(name, Some(""), Some(""), attrs);
      posted := Some(GitAttrs(purl, p.version, origin.repo, origin.commit));
    }
  }

  /** The steps of create_compver once its checks pass: create, look up the origin, post the attributes. */
  method Register(client: CatalogClient, ws: Workspace, reg: Registry, purl: string, p: Purl, tempDir: string)
    returns (r: Creation)
    modifies client, ws
    ensures var t := MadeTrace(client.oracle, old(client.log), reg, ws.git, purl, p);
            client.log == old(client.log) + t.calls && r == t.value
    ensures ws.commands == old(ws.commands) + OriginCommands(reg, ws.git, Some(p.ty), p.namespace, p.name, p.version)
  {
    ghost var h0 := client.log;
    var name := Provide(client, PurlComponent(p), VersionName(p));
    ghost var h1 := client.log;
    var origin, posted := Describe(client, ws, reg, name, purl, p, tempDir);
    r := Made(name, origin, posted);
    Regroup(h0, h1[|h0|..], client.log[|h1|..]);
  }

  /** The origin of the new component `name`, and the attributes posted to it. */
  method Describe(client: CatalogClient, ws: Workspace, reg: Registry, name: string, purl: string, p: Purl,
                  tempDir: string)
    returns (origin: Origin, posted: Option<GitAttributes>)
    modifies client, ws
    ensures origin == OriginOfPurl(reg, ws.git, p) && posted == Posted(purl, p, origin)
    ensures client.log == old(client.log) + UpdateCalls(client.oracle, old(client.log), name, posted)
    ensures ws.commands == old(ws.commands) + OriginCommands(reg, ws.git, Some(p.ty), p.namespace, p.name, p.version)
  {
    origin := ws.CommitFromPurl(reg, Some(p.ty), p.namespace, p.name, p.version, tempDir);
    posted := Annotate(client, name, purl, p, origin);
  }

  /**
   * create_compver. The catalog client records the requests, the workspace
   * the git commands; `tempDir` is the temporary clone directory.
   */
  method CreateCompver(client: CatalogClient, ws: Workspace, reg: Registry, parse: string -> Option<Purl>,
                       components: (string, string) -> Option<nat>, purl: Option<string>, tempDir: string)
    returns (r: Creation)
    modifies client, ws
    ensures var t := CompverTrace(client.oracle, old(client.log), reg, ws.git, parse, components, purl);
            client.log == old(client.log) + t.calls && r == t.value
    ensures ws.commands == old(ws.commands) + CompverCommands(reg, ws.git, parse, components, purl)
  {
    if purl.None? || Strip(purl.value) == "" {
      return NoPurl;
    }
    var parsed := parse(purl.value);
    if parsed.None? {
      return BadPurl;
    }
    var p := parsed.value;
    var count := components(Domain(p), QueryName(p));
    if count.None? {
      return QueryFailed;
    }
    if count.value != 0 {
      return Listed;
    }
    r := Register(client, ws, reg, purl.value, p, tempDir);
  }
}
