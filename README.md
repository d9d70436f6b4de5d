# SBOM enrichment service: a Dafny model of its core

The service takes the packages listed in software bills of materials and
keeps a component catalog and a relational store up to date.

For each package URL (purl) it does four things:
- it creates a component version in the catalog;
- it finds the source repository and the commit of the package through
  the ecosystem's registry and `git`;
- it records those as attributes of the component;
- it stores the package's known vulnerabilities.

The license rows an SBOM upload lists for a component replace the rows of
the same kind stored for it: kind `license` for a CycloneDX upload, kind
`spdx_json` for an SPDX upload. Only `license` rows are scanned for
vulnerabilities. A small Go tool walks a source tree. It
collects the names of cryptographic algorithms that occur in the source
files it does not filter out.

The model is split into these modules:

- `Names` (`names.dfy`): `is_empty`, `clean_name` and the qualified names
  `name;variant;version`.
- `Catalog` and `CatalogProps` (`catalog.dfy`, `catalog_props.dfy`): the
  catalog routines.
  - The remote catalog is an oracle: it answers a request given every
    request it received before.
  - Each routine is a function giving the requests it sends and the value
    it returns. The class `CatalogClient` keeps a `log` of requests, and
    each of its methods is proved to append exactly those requests.
- `Origin` (`origin.dfy`): `getCommitFromPurl` and the registry lookups up
  to their parsed replies, `get_commit_sha` and the rewrites of
  `get_deb_info`.
  - `git` is an oracle.
  - The class `Workspace` holds the current directory and the git commands
    run.
- `Provenance` (`provenance.dfy`): `create_compver`. It covers the domain
  and names derived from a purl, the checks before creation, the creation
  requests and the `attrs` dict.
- `Vulns` (`vulns.dfy`): `update_vulns`. It covers the query payload, the
  summary text, the CVSS bucket, the risk level, and the class `VulnStore`
  over `dm_vulns`.
- `Deps` (`deps.dfy`): `save_components_data` over the class `DepTable`
  (`dm_componentdeps`).
- `Store` and `Retry` (`store.dfy`, `retry.dfy`): the shared pieces. `Store`
  models insert-if-absent (`ON CONFLICT DO NOTHING`). `Retry` models the
  bounded connection retry (`db_conn_retry` = 3).
- `Scanner` (`scanner.dfy`): the Go tool's `shouldIgnore`, its extension
  whitelist, the walk callback and `processFile`'s set accumulation.
- `Text` (`text.dfy`): the Python and Go string functions the code calls,
  on ASCII.

These pieces are parameters of the model:
- the catalog, the registries, `git` and the vulnerability database;
- purl parsing (`PackageURL.from_string`);
- the CVSS library;
- the count query of `create_compver`;
- the binary-file check and the `.gitignore` matcher;
- the algorithm regular expression;
- whether each connection attempt gets through.

## Model

| member | source | states |
|---|---|---|
| Names.IsNotEmpty | main.py:105-133 | `is_not_empty` is true exactly when `is_empty` is false, for None, strings and ints |
| Names.IsEmptyIffBlank | main.py:115-117 | a string is empty exactly when every character of it is white space |
| Names.CleanName | main.py:502-503 | `clean_name` gives None exactly for None |
| Names.CleanNameIsReplaceChain | main.py:505-515 | the character-by-character model is the chain of ten replacements in the source's order, and it never lengthens a name |
| Names.CleanIsCharwise | main.py:505-515 | the chain of replacements rewrites each character independently of its neighbours |
| Names.CleanNameShape | main.py:505-515 | the output holds none of `- + : ~ ( ) # @ /`, and it has exactly as many `.` as the input has `/` |
| Names.CleanCharsConcat | main.py:505-515 | cleaning a concatenation cleans each piece |
| Names.CleanCharsDots | main.py:663-665 | replacing `.` by `_` before `clean_name` changes nothing |
| Names.CleanIdempotentIff | main.py:505-515 | cleaning twice equals cleaning once exactly when the input holds no `/` |
| Names.CleanTwiceStable | main.py:505-515 | a third cleaning no longer changes a name cleaned twice |
| Names.CleanNotIdempotent | main.py:505-507 | `x/y` cleans to `x.y`, which cleans to `x_y` |
| Names.SemicolonKept | main.py:665 | `clean_name` keeps the `;` between name and version |
| Names.Promote | main.py:211-213 | a blank variant with a non-blank version gives (version, None); any other pair is returned unchanged; a non-blank version never comes with a blank variant |
| Names.PromoteIdempotent | main.py:285-287 | promoting twice equals promoting once |
| Names.QualifyRoundTrip | main.py:217-222 | splitting `name;variant;version` at `;` gives back the base and the kept qualifiers |
| Names.ShortName | main.py:224-228 | the short name has no `.`; it is "" when the name has no `.`, else the name ends with `.` and the short name |
| Names.RenameBase | main.py:539-540 | `update_name`'s base is the whole name without a `.`, else the last dot-segment |
| Catalog.FirstMatch | main.py:253-259 | the first version whose name is the check name, with none before it; None exactly when there is none |
| Catalog.ReadLookup | main.py:246-263 | `[-1, ""]` without a successful reply carrying an id; when the reply's name differs from the check name and a listed version has the check name, the id of the first such version and the check name; otherwise the reply's own id and name |
| Catalog.ItemCalls | main.py:465-488 | one create request per remaining item |
| Catalog.ItemLoopStep | main.py:465-488 | one pass of the item loop: the creation, the optional link, then the rest of the loop |
| Catalog.CatalogClient.Send | main.py:136-189 | one request is appended to the log; the reply is the catalog's answer to it |
| Catalog.CatalogClient.GetComponent | main.py:191-263 | the requests sent and the `[id, name]` returned are those of the lookup trace |
| Catalog.CatalogClient.NewComponentItem | main.py:441-489 | the requests sent and the reply returned are those of the item trace |
| Catalog.CatalogClient.AddItems | main.py:465-488 | the loop sends the item trace's requests and ends with its last reply |
| Catalog.CatalogClient.AddItem | main.py:466-488 | one item created at its `ypos`, linked from the previous item only when that id is > 0; the next parent is the new id |
| Catalog.CatalogClient.UpdateName | main.py:518-549 | the rename request is the last dot-segment plus the cleaned qualifiers |
| Catalog.CatalogClient.CreateVersion | main.py:370-391 | a base version for a negative parent, else a derived and renamed one, then the items |
| Catalog.CatalogClient.NewDockerComponent | main.py:349-391 | the requests and id of a docker component trace |
| Catalog.CatalogClient.NewFileComponent | main.py:394-438 | the requests and id of a file component trace |
| Catalog.CatalogClient.FindLatest | main.py:295-299 | the requests and hit of the three-step lookup chain |
| Catalog.CatalogClient.Refresh | main.py:334-345 | the requests and id of the keep-or-derive branch |
| Catalog.CatalogClient.NewComponentVersion | main.py:266-346 | the requests sent and the id returned are those of the resolve trace |
| Catalog.CatalogClient.GetComponentName | main.py:591-611 | the one request and the `domain.name` (or "") returned |
| Catalog.CatalogClient.UpdateComponentAttrs | main.py:614-642 | an id-only lookup, then the attributes posted to that id |
| Catalog.PostGuardAsWrittenPasses | main.py:183-185 | as written the status guard rejects no status, so a 500 reply's JSON comes back as the reply |
| Catalog.PostGuardKeepsSuccess | main.py:183-185 | the guard as intended keeps exactly the 2xx replies |
| CatalogProps.LookupChainShape | main.py:295-299 | the lookups go in fixed order and stop at the first id other than -1; a result of -1 means all three missed |
| CatalogProps.LookupChainOnlyLooks | main.py:295-299 | the chain sends lookups only |
| CatalogProps.ItemStepsCreates | main.py:465-488 | the item loop creates exactly the given items, in order |
| CatalogProps.ItemStepsKinds | main.py:465-488 | the loop sends nothing but its creations and links within the component |
| CatalogProps.LinkAt | main.py:479-485 | in the item loop a link follows exactly the creations that got a result while the last item created before them has a positive id; it goes from that id to the id just created |
| CatalogProps.ParentIsLastCreated | main.py:470-485 | the id an item is linked from is that of the last creation that got a result, or -1 when none did |
| CatalogProps.ItemStepsFirst | main.py:465-477 | the loop sends something exactly when it has items, and the first item's creation first |
| CatalogProps.ItemsOnlyItems | main.py:441-489 | `new_component_item` sends only item requests for its component |
| CatalogProps.ItemsShape | main.py:457-488 | docker kind or no items: one clearing request; otherwise one creation per item in order, each creation with a result followed by a link from the last item created before it when that id is positive, and no other link |
| CatalogProps.DeriveShape | main.py:380-389 | a derived version: its request, then its rename, then no other version request |
| CatalogProps.BaseShape | main.py:372-379 | a base version: its request first, and no other version request |
| CatalogProps.FreshShape | main.py:327-331 | without a hit, a base component is created and no other version |
| CatalogProps.KeepOrDeriveShape | main.py:334-339 | after a hit, a version is derived from it exactly when its name is blank or differs from the check name |
| CatalogProps.ItemsAgainShape | main.py:341-345 | the items sent again are item requests for the resulting id |
| CatalogProps.RefreshShape | main.py:334-345 | after a hit without `autoInc`: never a base version, and a version is created exactly when the names differ, as the first request |
| CatalogProps.DecideShape | main.py:327-345 | a base version exactly when the hit's id is negative; with `autoInc` and a hit nothing is sent |
| CatalogProps.ResolveSplit | main.py:266-346 | `new_component_version` is its lookup chain followed by the decision on the hit |
| CatalogProps.BaseExactlyWhenNotFound | main.py:295-331 | a base version is created exactly when the lookup chain ends negative, right after the lookups |
| CatalogProps.AutoIncReusesHit | main.py:327-346 | with `autoInc` and a hit, the hit's id is returned and only the lookups are sent |
| CatalogProps.ReuseStillSendsItems | main.py:335-345 | a hit with the check name creates nothing but still sends the item structure again |
| CatalogProps.DockerDeriveClearsTwice | main.py:337-343 | on the docker derive path with a positive id, the items are cleared twice |
| CatalogProps.CleanTwiceNoDot | main.py:282-283 | a name cleaned twice holds no `.` |
| CatalogProps.DerivedNameHasNoDot | main.py:518-547 | the name `update_name` gives a derived version holds no `.` |
| CatalogProps.SlashVariantCheckHasDot | main.py:282-316 | for a variant with `/`, the check name holds a `.` |
| CatalogProps.SlashVariantAlwaysDerives | main.py:282-339 | for a variant with `/`, a hit whose name has no `.` is always derived again, so repeated calls keep creating versions |
| CatalogProps.AttrsPostedOnlyToHit | main.py:629-642 | attributes are posted only to the component the id-only lookup found, and to that one |
| Origin.ParseType | main.py:916-931 | missing or empty type, a known ecosystem by its own name, or unsupported |
| Origin.ParseTypeRoundTrip | main.py:918-929 | each ecosystem is reached by its own type string and by no other |
| Origin.CloneRewriteGitPlusHttps | main.py:755-759 | on a `git+https://` URL only the third rewrite applies |
| Origin.CloneUrlAsWrittenDoublesHost | main.py:757 | as written, `git+https://host/…` becomes `https://github.comhost/…` |
| Origin.CloneUrlGitPlusHttps | main.py:757-759 | corrected, a `git+https://` URL only loses its `git+` |
| Origin.CloneUrlHttps | main.py:755-759 | an `https://` URL is cloned as it is, by the chain as written and as corrected |
| Origin.CloneUrlSsh | main.py:758-759 | a `git+ssh://git@` URL is cloned over `https://`, by the chain as written and as corrected |
| Origin.CloneUrlHttpGithub | main.py:755 | `http://github.com` becomes `https://github.com`, by the chain as written and as corrected |
| Origin.CloneUrlGitGithub | main.py:756 | `git://github.com` becomes `https://github.com`, by the chain as written and as corrected |
| Origin.PkgToTeamAbsent | main.py:827-830 | without `pkg-` nothing is renamed |
| Origin.PkgToTeamRename | main.py:827-830 | `pkg-X` before a non-word character becomes `X-team` |
| Origin.PkgToTeamAround | main.py:827-830 | no renaming crosses a `/`: path segments are renamed one by one |
| Origin.DebianRepoUrlKeeps | main.py:811-830 | a URL on none of the retired hosts and without `pkg-` is used as it is |
| Origin.DebianAliothToSalsa | main.py:811-830 | an Alioth URL moves to salsa, loses every `.git`, and has its `pkg-X` segments renamed `X-team` |
| Origin.FirstHit | main.py:777-787 | a commit exactly when some revision is accepted, and it is stripped |
| Origin.Probes | main.py:777-787 | one `rev-list` per revision in order; every probe but the last was rejected, the probing stops at the first accepted revision, and the commit found is the stripped output of the last probe |
| Origin.CommitSha | main.py:745-791 | clones the URL as main.py:755-759 rewrites it; raises exactly after a successful clone without a version; a commit only from a successful clone with a version |
| Origin.BareTagFirst | main.py:778-781 | a bare-version tag wins, and only one `rev-list` runs |
| Origin.PrefixedTagSecond | main.py:783-787 | `v` and the version are tried only when the bare version is unknown |
| Origin.CommitShaSource | main.py:777-791 | a commit comes from a revision `rev-list` accepted, without surrounding white space |
| Origin.OriginUnknownType | main.py:911-933 | a missing, empty or unsupported type gives no URL and no commit, and runs no git command |
| Origin.OriginGolangNoGit | main.py:860-874 | for `golang` git is never run; the lookup raises exactly when the proxy cannot be reached or its 200 reply is not JSON |
| Origin.OriginMavenNoGroup | main.py:877-878 | a Maven purl without a namespace makes the lookup raise |
| Origin.OriginFails | main.py:745-791 | a failure either comes from the registry lookup, before any git command, or follows one clone when there is no version |
| Origin.LookupRaises | main.py:793-908 | a lookup raises exactly for Maven without a group, a request that raises, or a body it reads that does not parse: PyPI and crates.io whatever the status, npm, Go and Maven after a 200, never Debian |
| Origin.OriginUnreachable | main.py:911-933 | when no registry can be reached, every known type raises and no git command runs |
| Origin.OriginCommitFromGit | main.py:911-933 | a commit not from the Go proxy came from `rev-list` on the version or `v` and the version |
| Origin.Workspace.Run | main.py:764 | one git command is recorded after those run before, and the directory does not change |
| Origin.Workspace.GetCommitSha | main.py:745-791 | the result is `CommitSha`, cloning the URL as written, and the git commands are its clone and probes; the directory is restored unless it raises, and then it is the temporary directory |
| Origin.Workspace.RevParse | main.py:777-787 | the probes of the bare and the prefixed version |
| Origin.Workspace.CommitFromPurl | main.py:911-933 | the origin and git commands are those `OriginOf` defines, whose properties are the `Origin*` lemmas; the directory is unchanged when the lookup raises or an origin is found, and left in the temporary directory when git raises |
| Provenance.DomainFixShape | main.py:658 | after the fixes no `/ - + @` is left |
| Provenance.DomainShape | main.py:652-658 | every domain lies under `GLOBAL.Open Source.` and holds none of `/ - + @` |
| Provenance.NamespaceLevels | main.py:653-658 | a namespace's `.` become `_`; only its `/` make domain levels |
| Provenance.QueryNameQualified | main.py:662-666 | the count query's name is the cleaned name, plus `;` and the cleaned version when there is one |
| Provenance.PackageIsShortName | main.py:668-698 | the package holds no `.`, so it is the component's short name and its rename base |
| Provenance.FirstLookupIsBare | main.py:687 | the first lookup asks by bare name and compares with the package |
| Provenance.AsMapKeys | main.py:718-735 | `GitCommit` exactly with a commit, `GitTag` exactly with a URL and a version, the other five exactly with a URL; `GitRepo` is org `/` project |
| Provenance.GitAttrsShape | main.py:718-735 | the commit as found; a link exactly for a non-empty URL, carrying the purl and the version; org and project hold no `/` |
| Provenance.ShortPathLink | main.py:723-727 | fewer than three path segments give an empty organisation and project |
| Provenance.UrlSegments | main.py:723 | `scheme://host/org/repo` splits into host, org and repo |
| Provenance.OrgAndProject | main.py:722-727 | for `https://host/org/repo` or `http://…` the organisation and project are `org` and `repo` |
| Provenance.FillAttrs | main.py:706-735 | the dict filled key by key is the attributes' map |
| Provenance.AddLink | main.py:729-735 | the five or six link keys are added to the dict |
| Provenance.Admit | main.py:647-680 | creation goes on exactly for a non-blank purl that parses and whose name the count query does not find |
| Provenance.NothingUnlessNew | main.py:647-680 | otherwise no catalog request is sent and no git command runs |
| Provenance.PostedOnlyWithUrl | main.py:718-737 | attributes are posted exactly when a repository URL was found, with its commit, the purl and the version tag |
| Provenance.CreationFirst | main.py:680-739 | once admitted, a component is made with the purl's origin; its creation requests come first, and are all when nothing is posted |
| Provenance.EnsureBase | main.py:687-693 | the base lookup, and the base's creation when it is missing |
| Provenance.Provide | main.py:681-703 | the creation requests and the new component's full name |
| Provenance.Annotate | main.py:721-737 | posts the attributes exactly when there is something to post |
| Provenance.Register | main.py:681-739 | the catalog requests and git commands of a creation that passed the checks, cloning the URL as written |
| Provenance.Describe | main.py:712-737 | the purl's origin, found through the as-written clone URL, and the attributes posted for it |
| Provenance.CreateCompver | main.py:645-742 | the requests and git commands of `create_compver` are those of its specification, with the clone URL as written |
| Retry.FirstSuccessBounded | main.py:1094-1103 | at most three attempts; the attempt that gets through is the first that does, and the error is re-raised only when all fail |
| Retry.Attempt | main.py:1013-1103 | the retry loop stops at an attempt between 1 and 3 that got through exactly when some attempt does |
| Vulns.QueryFree | main.py:1036-1037 | the purl cut at its first `?`: a prefix of the purl without `?`, followed in the purl by `?` when it has one, and the whole purl otherwise |
| Vulns.LowerShape | main.py:1034-1038 | lower-casing adds 32 to each upper-case letter and changes no other character |
| Vulns.PayloadShape | main.py:1033-1038 | the query goes by purl exactly for a non-blank purl, lower case without query string; otherwise by lower-case name and version |
| Vulns.AliasesReadBack | main.py:1046-1051 | the aliases can be split back from the text, and the summary follows `: ` |
| Vulns.BucketMonotone | main.py:1062-1072 | every score from 0 gets a level, and a higher score never gets a lower level |
| Vulns.BucketBounds | main.py:1063-1072 | the bounds of None, Low, Medium, High and Critical; no level below 0 |
| Vulns.NormalRisk | main.py:1079-1081 | a stored level is never "Moderate" |
| Vulns.LevelNamesKept | main.py:1064-1079 | the bucket names survive capitalisation |
| Vulns.ScoreWins | main.py:1055-1072 | a scored vector decides the level and is stored beside it |
| Vulns.NoSeverityNoRisk | main.py:1053-1055 | without `severity` the level is empty and the vector "", whatever `database_specific` says |
| Vulns.FallbackUsed | main.py:1074-1077 | the database's severity is used, normalised, when the vector gives no level |
| Vulns.ModerateIsMedium | main.py:1079-1081 | "moderate" in any case is stored as "Medium" |
| Vulns.RowOf | main.py:1043-1089 | a row exactly when the finding can be assessed, keyed by package, version and id, with the assessment's level and vector |
| Vulns.FindingRowsShape | main.py:1042-1092 | each row is its finding's row, with its level and vector, in order: all of them, or those before the first finding that cannot be assessed |
| Vulns.FindingsStayRaised | main.py:1042-1092 | after a finding raises, the later findings add nothing |
| Vulns.ScanStaysRaised | main.py:1028-1093 | after a package raises, the later packages add nothing |
| Vulns.VulnStore.Insert | main.py:1083-1092 | a row is added only under a new key |
| Vulns.VulnStore.ScanPackage | main.py:1029-1092 | the table gets the package's rows inserted, and the raise is reported |
| Vulns.VulnStore.InsertFindings | main.py:1042-1092 | the findings' rows are inserted one by one until one raises |
| Vulns.VulnStore.Scan | main.py:1028-1093 | the listed packages' rows are inserted in turn until one raises |
| Vulns.VulnStore.UpdateVulns | main.py:1003-1103 | gives up unchanged when every attempt fails; else inserts the scan's rows; an existing row is never changed, and keyed rows stay keyed |
| Store.InsertAbsent | main.py:1083-1089 | `ON CONFLICT DO NOTHING`: the key is added, old rows kept, and a new key gets the row |
| Store.InsertAllKeys | main.py:1348-1354 | a batch adds exactly its keys |
| Store.InsertAllKeeps | main.py:1348-1354 | a batch never changes or drops a row already there |
| Store.InsertAllFrom | main.py:1348-1354 | every added row is a row of the batch, under its own key |
| Store.InsertAllKeyed | main.py:1348-1354 | rows inserted under their keys keep a keyed table keyed |
| Store.InsertAllConcat | main.py:1348-1354 | inserting `a` then `b` is inserting `a + b` |
| Store.InsertAllTwice | main.py:1348-1354 | inserting the same batch twice is inserting it once |
| Store.Dedupe | main.py:1329 | each row once, nothing else: same rows, no duplicate, never longer |
| Store.DedupeHarmless | main.py:1329-1354 | removing duplicates before the insert changes nothing |
| Store.InsertAllOrderFree | main.py:1329-1354 | when no two distinct rows share a key, any batch with the same rows gives the same table |
| Store.OrderDecidesSharedKey | main.py:1329-1354 | two distinct rows under one key: the one inserted first is kept, so the order decides |
| Deps.Deleted | main.py:1341-1346 | exactly the rows of other components or kinds remain, unchanged |
| Deps.OtherPairsKept | main.py:1341-1354 | rows of other components or kinds are neither changed nor removed |
| Deps.PairReplaced | main.py:1341-1354 | after the save every row of the component and kind comes from the batch, and every batch row's key is taken |
| Deps.SaveTwice | main.py:1323-1363 | saving the same batch again leaves the table as it is |
| Deps.SavedOrderFree | main.py:1329-1354 | whatever order `list(set(...))` gives, the saved table is the same when no two distinct rows share a key |
| Deps.DepTable.Delete | main.py:1341-1346 | the table after the delete |
| Deps.DepTable.InsertMany | main.py:1348-1356 | the table after the inserts, and the count is the rows added |
| Deps.DepTable.SaveComponentsData | main.py:1323-1374 | an empty batch changes nothing; failed attempts give a server error unchanged; otherwise the saved table, "updated" exactly when rows were added |
| Scanner.Relative | main.go:379 | the relative path is a suffix of the path, and the path is root `/` it when root `/` was trimmed |
| Scanner.Ext | main.go:387 | the extension is a suffix starting at a `.` with no further `.` or `/`, or "" |
| Scanner.ExtEmpty | main.go:387 | the extension is "" exactly when every `.` of the path is followed by a `/` |
| Scanner.ShouldIgnore | main.go:373-377 | the root itself is never ignored |
| Scanner.GitSuffixIgnored | main.go:379-383 | a path ending in `.git` is ignored, file or directory |
| Scanner.DirectoryDecision | main.go:385-396 | a directory is decided by the `.git` check and the `.gitignore` patterns alone |
| Scanner.ExtensionFirst | main.go:385-390 | a file whose lower-cased extension is not whitelisted is ignored whatever the binary check and patterns say |
| Scanner.FileDecision | main.go:373-397 | a file is scanned exactly when every check lets it through |
| Scanner.ExtLower | main.go:387 | taking the extension and lower-casing commute |
| Scanner.ExtensionCaseBlind | main.go:387-390 | files whose relative paths differ only in case are treated alike |
| Scanner.UpperExtensionLowered | main.go:387-390 | `Main.PY` passes the whitelist as `.py` |
| Scanner.VisitEntry | main.go:337-352 | directories are entered or skipped, files passed or scanned |
| Scanner.RootEntered | main.go:341-346 | the walk always enters its root |
| Scanner.MatchesExactly | main.go:410-416 | a name is collected exactly when it is a match on some line |
| Scanner.MatchesConcat | main.go:410-416 | scanning `a` then `b` collects the union |
| Scanner.MatchesOrderFree | main.go:337-352 | the order of the files does not change what is collected |
| Scanner.AlgorithmSet.ProcessFile | main.go:399-417 | the set gains exactly the file's matches, and is unchanged when the file cannot be opened |

## Left out

- HTTP, logins, cookies, the FastAPI handlers and their SBOM parsing.
  - The catalog, the registries, the vulnerability database and `git` are
    oracles.
  - A `get_json` reply that fails, has a status other than 200 or is not
    JSON becomes a missing reply.
  - A `post_json` reply is missing only after a connection error: its
    status guard passes every status (see Findings). A `post_json` reply
    that is not JSON raises, which is not modelled.
- Threads, sleeping between retries, logging and printing.
- A failed attempt is assumed to leave the store as it was: its transaction
  is not committed.
- `PackageURL.from_string` is a parameter, and so is the count query in
  `create_compver`.
  - A purl that does not parse raises.
  - The query either answers a count or raises.
- The CVSS library is a parameter that gives the base score in integer
  tenths, or nothing when it raises. Floating point is not modelled.
- XML parsing of Maven POM files, JSON decoding and the `Vcs-Git` regular
  expression are left out. The registry replies arrive already parsed.
- Case mapping, `\w` and white space cover ASCII only.
- A registry reply whose JSON holds `null` where an object is read (say
  `info: null` from PyPI) raises in the source. The model receives the
  repository field already extracted, so it does not model that exception.
- `get_commit_sha` clones the URL as main.py:755-759 rewrites it, including
  the doubled host of the first Findings row; `Origin.CloneUrl` is the
  corrected rewrite, proved on its own.
- Exceptions raised by catalog requests themselves are not modelled.
  Examples: a reply without `result`, or a non-numeric id.
- Subprocess errors other than those `get_commit_sha` handles are not
  modelled.
- `Origin.Workspace.GetCommitSha` does not model the deletion of the
  temporary directory.
- `Vulns.VulnStore.Insert` treats every failed insert as a duplicate. The
  source swallows every insert error, not only conflicts.
- `Vulns.VulnStore.UpdateVulns` keeps only one effect of `create_compver`:
  a purl that does not parse ends the scan. Its catalog requests are not
  modelled there; they are modelled by `Provenance.CreateCompver`.
- `Store.Dedupe` lists the rows in the order of first occurrence, where
  Python's `set` gives no order. The order matters only when two distinct
  rows of a batch share a key: the one inserted first is kept
  (`Store.OrderDecidesSharedKey`). When no two distinct rows share a key,
  every order gives the same table (`Store.InsertAllOrderFree`,
  `Deps.SavedOrderFree`).
- Deps.DepTable.SaveComponentsData: when two distinct rows of the batch
  share a key, the source keeps whichever one the set lists first. The
  model keeps the first in batch order, which is one of those outcomes.
- `Deps.DepTable.InsertMany` takes `rowcount` of `executemany` to be the
  number of rows added.
- The columns of `dm_componentdeps_pkey` are not in the repository, so the
  key is a parameter.
- The vulnerability handler's seven-field rows do not match the nine-column
  insert. That handler is outside this model.
- `Catalog.CatalogClient.NewComponentVersion` takes the variant as a string.
  `create_compver` never passes None, for which `rstrip` at main.py:290
  would raise.
- `new_component` (main.py:552-588) is never called, and it is not modelled.
- `filepath.Walk`, `os.Chdir`, reading files and the go-gitignore library
  are left out.
  - The binary check and the `.gitignore` matcher are predicates on the
    relative path.
  - The algorithm regular expression is a function from a line to its
    matches.
  - A file that cannot be opened is None.
- Paths use `/` as the only separator.

## Findings

| source | as written | input that shows it | evidently intended | confidence | as-written member | corrected member |
|---|---|---|---|---|---|---|
| main.py:757 | `git+https://` is replaced by `https://github.com`, so the URL's own host follows `github.com` | `git+https://github.com/o/r` becomes `https://github.comgithub.com/o/r` | `git+https://github.com/o/r` becomes `https://github.com/o/r` | high, not executed | Origin.CloneUrlAsWrittenDoublesHost | Origin.CloneUrlGitPlusHttps |
| main.py:183 | `status_code < 200 and status_code > 299`, which no status satisfies | a 500 reply with a JSON body is returned as the reply, and `update_component_attrs` reports success | `status_code < 200 or status_code > 299` | high, not executed | Catalog.PostGuardAsWrittenPasses | Catalog.PostGuardKeepsSuccess |
