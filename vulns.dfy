/**
 * `update_vulns`: for every package listed with a purl, the vulnerability
 * database is queried, each finding gets a summary and a risk level, and a
 * row keyed by package, version and vulnerability id is inserted unless
 * the key is already there.
 *
 * The vulnerability database's answer, the CVSS library's score (in tenths,
 * as the library rounds scores to one decimal) and the purl parser are
 * parameters.
 */
module Vulns {
  import opened Wrappers
  import opened Text
  import opened Store
  import opened Retry
  import opened Provenance

  // ----------------------------------------------------------------- payload

  /** The body of the vulnerability query. */
  datatype Payload =
    | ByName(name: string, version: string)   // {"package": {"name": ...}, "version": ...}
    | ByPurl(purl: string)                    // {"package": {"purl": ...}}

  /** `purl.split("?")[0]` when the purl holds a `?`: the purl without its query string. */
  function QueryFree(purl: string): (r: string)
    ensures '?' !in r && IsPrefix(r, purl)
    ensures '?' in purl ==> |r| < |purl| && purl[|r|] == '?'
    ensures '?' !in purl ==> r == purl
  {
    if '?' in purl then
      SplitPrefix(purl, '?');
      Split(purl, '?')[0]
    else purl
  }

  /** The first piece of a split is a prefix of the string, cut at the first separator when there is one. */
  lemma {:induction false} SplitPrefix(s: string, sep: char)
    ensures IsPrefix(Split(s, sep)[0], s)
    ensures sep in s ==> |Split(s, sep)[0]| < |s| && s[|Split(s, sep)[0]|] == sep
    decreases |s|
  {
    if s != [] && s[0] != sep {
      SplitPrefix(s[1..], sep);
      assert s == [s[0]] + s[1..];
      assert sep in s ==> sep in s[1..];
    }
  }

  /** The purl stored with the findings: the listed purl, its query string cut off when it is not blank. */
  function StoredPurl(purl: Option<string>): Option<string> {
    if BlankPurl(purl) then purl else Some(QueryFree(purl.value))
  }

  /** The query: by lower-cased purl without query string, or by lower-cased name and version when the purl is blank. */
  function MakePayload(name: string, version: string, purl: Option<string>): Payload {
    if BlankPurl(purl) then ByName(Lower(name), Lower(version))
    else ByPurl(Lower(QueryFree(purl.value)))
  }

  /** No upper-case letter in `s`. */
  predicate LowerCase(s: string) {
    forall i :: 0 <= i < |s| ==> !('A' <= s[i] <= 'Z')
  }

  /** `s.lower()` leaves no upper-case letter and changes nothing else. */
  lemma LowerShape(s: string)
    ensures |Lower(s)| == |s| && LowerCase(Lower(s))
    ensures forall i :: 0 <= i < |s| && 'A' <= s[i] <= 'Z' ==> Lower(s)[i] as int == s[i] as int + 32
    ensures forall i :: 0 <= i < |s| && !('A' <= s[i] <= 'Z') ==> Lower(s)[i] == s[i]
  {
  }

  /**
   * The query goes by purl exactly when there is a non-blank purl; the purl
   * sent is lower case and has no query string, and it is the stored purl
   * lower-cased.
   */
  lemma PayloadShape(name: string, version: string, purl: Option<string>)
    ensures MakePayload(name, version, purl).ByPurl? <==> !BlankPurl(purl)
    ensures var p := MakePayload(name, version, purl);
            p.ByPurl? ==> '?' !in p.purl && LowerCase(p.purl) && p.purl == Lower(StoredPurl(purl).value)
    ensures var p := MakePayload(name, version, purl);
            p.ByName? ==> LowerCase(p.name) && LowerCase(p.version) && StoredPurl(purl) == purl
  {
    if !BlankPurl(purl) {
      var q := QueryFree(purl.value);
      LowerShape(q);
      assert forall i :: 0 <= i < |q| ==> Lower(q)[i] != '?';
    } else {
      LowerShape(name);
      LowerShape(version);
    }
  }

  // ----------------------------------------------------------------- summary

  /** The finding's text: its aliases, space-joined, before the summary when there are aliases. */
  function Summary(summary: string, aliases: Option<seq<string>>): string {
    if aliases.None? then summary
    else
      var joined := Join(aliases.value, ' ');
      if summary != "" then joined + ": " + summary else joined
  }

  /**
   * The aliases can be read back from the text: the part before the first
   * `:`, split at spaces; and the summary is what follows `: `.
   */
  lemma AliasesReadBack(summary: string, aliases: seq<string>)
    requires aliases != []
    requires forall i :: 0 <= i < |aliases| ==> ' ' !in aliases[i] && ':' !in aliases[i]
    ensures var text := Summary(summary, Some(aliases));
            Split(Split(text, ':')[0], ' ') == aliases
    ensures var text := Summary(summary, Some(aliases));
            summary != "" ==> text[|Join(aliases, ' ')| + 2..] == summary
  {
    var joined := Join(aliases, ' ');
    SplitJoin(aliases, ' ');
    JoinFree(aliases, ' ', ':');
    if summary != "" {
      assert joined + ": " + summary == joined + [':'] + (" " + summary);
      SplitAfter(joined, " " + summary, ':');
    } else {
      SplitFree(joined, ':');
    }
  }

  /** A join of pieces free of `c`, with a separator other than `c`, is free of `c`. */
  lemma {:induction false} JoinFree(parts: seq<string>, sep: char, c: char)
    requires c != sep
    requires forall i :: 0 <= i < |parts| ==> c !in parts[i]
    ensures c !in Join(parts, sep)
    decreases |parts|
  {
    if |parts| > 1 {
      JoinFree(parts[1..], sep, c);
    }
  }

  // ---------------------------------------------------------------- severity

  /** The CVSS major version of a vector, by its prefix. */
  datatype CvssVersion = V2 | V3 | V4

  /** `calculate_cvss_score`'s dispatch: `CVSS:3` and `CVSS:4` prefixes, anything else version 2. */
  function VersionOf(vector: string): CvssVersion {
    if IsPrefix("CVSS:3", vector) then V3
    else if IsPrefix("CVSS:4", vector) then V4
    else V2
  }

  /** The CVSS library: the base score in tenths for a vector of a version, None when it raises. */
  type Scorer = (CvssVersion, string) -> Option<int>

  /** The risk levels. */
  datatype Level = NoRisk | Low | Medium | High | Critical

  /** A level's name as stored. */
  function LevelName(l: Level): string {
    match l
    case NoRisk => "None"
    case Low => "Low"
    case Medium => "Medium"
    case High => "High"
    case Critical => "Critical"
  }

  /** A level's place in the order of the levels. */
  function Rank(l: Level): nat {
    match l
    case NoRisk => 0
    case Low => 1
    case Medium => 2
    case High => 3
    case Critical => 4
  }

  /**
   * The bucket of a base score in tenths: 0.0 None, 0.1 to 3.9 Low, 4.0 to
   * 6.9 Medium, 7.0 to 8.9 High, 9.0 and up Critical; no bucket below 0.
   */
  function Bucket(tenths: int): Option<Level> {
    if tenths == 0 then Some(NoRisk)
    else if 1 <= tenths <= 39 then Some(Low)
    else if 40 <= tenths <= 69 then Some(Medium)
    else if 70 <= tenths <= 89 then Some(High)
    else if tenths >= 90 then Some(Critical)
    else None
  }

  /**
   * Every score that can be scored gets a bucket, and a higher score never
   * gets a lower level: the buckets leave no gap and keep the order.
   */
  lemma BucketMonotone(a: int, b: int)
    requires 0 <= a <= b
    ensures Bucket(a).Some? && Bucket(b).Some?
    ensures Rank(Bucket(a).value) <= Rank(Bucket(b).value)
  {
  }

  /** The bucket bounds: the lowest and highest score of each level. */
  lemma BucketBounds()
    ensures Bucket(0) == Some(NoRisk) && Bucket(1) == Some(Low) && Bucket(39) == Some(Low)
    ensures Bucket(40) == Some(Medium) && Bucket(69) == Some(Medium)
    ensures Bucket(70) == Some(High) && Bucket(89) == Some(High) && Bucket(90) == Some(Critical)
    ensures forall t :: Bucket(t).None? <==> t < 0
  {
  }

  /** `risklevel.capitalize()`, and "Moderate" taken as "Medium". */
  function NormalRisk(level: string): (r: string)
    ensures r != "Moderate"
  {
    var c := Capitalize(level);
    if c == "Moderate" then "Medium" else c
  }

  /** What a finding's `severity` entry and `database_specific` hold. */
  datatype Finding = Finding(
    id: string,                                // "id", "" when absent
    summary: string,                           // "summary", "" when absent
    aliases: Option<seq<string>>,              // "aliases"
    severity: Option<seq<Option<string>>>,     // "severity": each entry's "score"
    databaseSpecific: Option<Option<string>>)  // "database_specific" and its "severity"

  /** The risk level and the CVSS vector stored for a finding; the vector is None for SQL NULL. */
  datatype Assessment = Assessment(risk: string, cvss: Option<string>)

  /** The level the score of a vector falls in, when there is a vector and the library scores it. */
  function ScoreLevel(scorer: Scorer, cvss: Option<string>): Option<Level> {
    if cvss.None? then None
    else
      var base := scorer(VersionOf(cvss.value), cvss.value);
      if base.None? then None else Bucket(base.value)
  }

  /**
   * The risk level and vector of a finding. None when the `severity` list is
   * empty: `sevlist[0]` raises an `IndexError`.
   */
  function Assess(f: Finding, scorer: Scorer): Option<Assessment> {
    if f.severity.None? then Some(Assessment(NormalRisk(""), Some("")))
    else if f.severity.value == [] then None
    else
      var cvss := f.severity.value[0];
      var level := ScoreLevel(scorer, cvss);
      var risk :=
        if level.Some? then LevelName(level.value)
        else if f.databaseSpecific.Some? && f.databaseSpecific.value.Some? then f.databaseSpecific.value.value
        else "";
      Some(Assessment(NormalRisk(risk), cvss))
  }

  /** A word with only its first letter upper case is its own capitalization. */
  lemma CapitalizedKept(s: string)
    requires s != [] && !('a' <= s[0] <= 'z')
    requires forall i :: 1 <= i < |s| ==> !('A' <= s[i] <= 'Z')
    ensures Capitalize(s) == s
  {
    assert Capitalize(s) == [UpperChar(s[0])] + Lower(s[1..]);
    assert Lower(s[1..]) == s[1..];
  }

  /** The level names are already capitalized, so a bucket is stored by its name. */
  lemma LevelNamesKept(l: Level)
    ensures NormalRisk(LevelName(l)) == LevelName(l)
  {
    var n := LevelName(l);
    assert n != [] && 'A' <= n[0] <= 'Z';
    assert forall i :: 1 <= i < |n| ==> 'a' <= n[i] <= 'z';
    CapitalizedKept(n);
  }

  /** A scored vector decides the level; the database's own severity is not consulted. */
  lemma ScoreWins(f: Finding, scorer: Scorer)
    requires f.severity.Some? && f.severity.value != []
    requires ScoreLevel(scorer, f.severity.value[0]).Some?
    ensures Assess(f, scorer) == Some(Assessment(LevelName(ScoreLevel(scorer, f.severity.value[0]).value),
                                                 f.severity.value[0]))
  {
    LevelNamesKept(ScoreLevel(scorer, f.severity.value[0]).value);
  }

  /**
   * Without a `severity` list the risk level is empty and the vector is "",
   * whatever `database_specific` says: the database's severity is a
   * fallback only beside a `severity` list.
   */
  lemma NoSeverityNoRisk(f: Finding, scorer: Scorer)
    requires f.severity.None?
    ensures Assess(f, scorer) == Some(Assessment("", Some("")))
  {
  }

  /** The database's severity is used, normalised, when the vector gives no level. */
  lemma FallbackUsed(f: Finding, scorer: Scorer, s: string)
    requires f.severity.Some? && f.severity.value != []
    requires ScoreLevel(scorer, f.severity.value[0]).None?
    requires f.databaseSpecific == Some(Some(s))
    ensures Assess(f, scorer).Some? && Assess(f, scorer).value.risk == NormalRisk(s)
  {
  }

  /** The lower-case spelling of the level some databases call "Moderate". */
  const ModerateLower: string := "moderate"

  /** A capitalized word is its lower-case spelling with the first letter made upper case. */
  lemma CapitalizeOfLower(s: string, t: string)
    requires Lower(s) == t && t != []
    requires 'a' <= t[0] <= 'z'
    ensures Capitalize(s) == [UpperChar(t[0])] + t[1..]
  {
    assert Lower(s)[0] == LowerChar(s[0]);
    assert Lower(s[1..]) == Lower(s)[1..];
  }

  /** "Moderate", whatever its case, is stored as "Medium". */
  lemma ModerateIsMedium(s: string)
    requires Lower(s) == ModerateLower
    ensures NormalRisk(s) == "Medium"
  {
    CapitalizeOfLower(s, ModerateLower);
    assert [UpperChar(ModerateLower[0])] + ModerateLower[1..] == "Moderate";
  }

  // -------------------------------------------------------------------- rows

  /** The key of `dm_vulns`: package, version and vulnerability id. */
  datatype VulnKey = VulnKey(packagename: string, packageversion: string, id: string)

  /** A row of `dm_vulns`. */
  datatype VulnRow = VulnRow(packagename: string, packageversion: string, purl: Option<string>, id: string,
                             summary: string, risklevel: string, cvss: Option<string>)

  function KeyOf(r: VulnRow): VulnKey {
    VulnKey(r.packagename, r.packageversion, r.id)
  }

  /** `r` is the row of finding `f` of a package: its key, its text, and a level that is never "Moderate". */
  predicate Describes(name: string, version: string, purl: Option<string>, f: Finding, r: VulnRow) {
    r.packagename == name && r.packageversion == version && r.purl == purl && r.id == f.id &&
    r.summary == Summary(f.summary, f.aliases) && r.risklevel != "Moderate"
  }

  /** The row inserted for a finding of a package; None when assessing it raises. */
  function RowOf(name: string, version: string, purl: Option<string>, f: Finding, scorer: Scorer)
    : (r: Option<VulnRow>)
    ensures r.Some? <==> Assess(f, scorer).Some?
    ensures r.Some? ==> Describes(name, version, purl, f, r.value) && r.value.risklevel == Assess(f, scorer).value.risk
                        && r.value.cvss == Assess(f, scorer).value.cvss
  {
    var a := Assess(f, scorer);
    if a.None? then None
    else Some(VulnRow(name, version, purl, f.id, Summary(f.summary, f.aliases), a.value.risk, a.value.cvss))
  }

  /** The rows inserted, in order, and whether an exception ended the scan. */
  datatype Batch = Batch(rows: seq<VulnRow>, raised: bool)

  /** The rows for the findings of a package, up to the first finding that raises. */
  function FindingRows(name: string, version: string, purl: Option<string>, fs: seq<Finding>, scorer: Scorer)
    : Batch
    decreases |fs|
  {
    if fs == [] then Batch([], false)
    else
      var b := FindingRows(name, version, purl, fs[..|fs| - 1], scorer);
      if b.raised then b
      else
        var r := RowOf(name, version, purl, fs[|fs| - 1], scorer);
        if r.None? then Batch(b.rows, true) else Batch(b.rows + [r.value], false)
  }

  /** A package listed for the scan: `packagename, packageversion, purl`. */
  datatype Listed = Listed(name: string, version: string, purl: Option<string>)

  /** The vulnerability database: the findings for a query. */
  type Osv = Payload -> seq<Finding>

  /**
   * The rows for one listed package. `create_compver` comes first, and a
   * purl that does not parse raises out of it and ends the scan.
   */
  function PackageRows(l: Listed, osv: Osv, scorer: Scorer, parse: string -> Option<Purl>): Batch {
    if !BlankPurl(l.purl) && parse(l.purl.value).None? then Batch([], true)
    else FindingRows(l.name, l.version, StoredPurl(l.purl), osv(MakePayload(l.name, l.version, l.purl)), scorer)
  }

  /** The rows for the listed packages, up to the first exception. */
  function ScanRows(ls: seq<Listed>, osv: Osv, scorer: Scorer, parse: string -> Option<Purl>): Batch
    decreases |ls|
  {
    if ls == [] then Batch([], false)
    else
      var b := ScanRows(ls[..|ls| - 1], osv, scorer, parse);
      if b.raised then b
      else
        var p := PackageRows(ls[|ls| - 1], osv, scorer, parse);
        Batch(b.rows + p.rows, p.raised)
  }

  /** Once raised, a scan stays raised: later packages add nothing. */
  lemma {:induction false} ScanStaysRaised(ls: seq<Listed>, n: nat, osv: Osv, scorer: Scorer,
                                           parse: string -> Option<Purl>)
    requires n <= |ls| && ScanRows(ls[..n], osv, scorer, parse).raised
    ensures ScanRows(ls, osv, scorer, parse) == ScanRows(ls[..n], osv, scorer, parse)
    decreases |ls| - n
  {
    if n < |ls| {
      assert ls[..n + 1][..n] == ls[..n];
      assert ScanRows(ls[..n + 1], osv, scorer, parse) == ScanRows(ls[..n], osv, scorer, parse);
      ScanStaysRaised(ls, n + 1, osv, scorer, parse);
    } else {
      assert ls[..n] == ls;
    }
  }

  /**
   * The inserted rows are the rows of the first findings, one each, in
   * order, with the finding's risk level and vector: all of them when no
   * finding raises; otherwise those before the first finding that cannot
   * be assessed, which is the one that raised.
   */
  lemma {:induction false} FindingRowsShape(name: string, version: string, purl: Option<string>,
                                            fs: seq<Finding>, scorer: Scorer)
    ensures var b := FindingRows(name, version, purl, fs, scorer);
            (if b.raised then |b.rows| < |fs| && Assess(fs[|b.rows|], scorer).None? else |b.rows| == |fs|) &&
            forall i :: 0 <= i < |b.rows| ==>
              RowOf(name, version, purl, fs[i], scorer) == Some(b.rows[i]) &&
              Describes(name, version, purl, fs[i], b.rows[i]) &&
              b.rows[i].risklevel == Assess(fs[i], scorer).value.risk && b.rows[i].cvss == Assess(fs[i], scorer).value.cvss
    decreases |fs|
  {
    if fs != [] {
      var init := fs[..|fs| - 1];
      FindingRowsShape(name, version, purl, init, scorer);
      var b := FindingRows(name, version, purl, init, scorer);
      var all := FindingRows(name, version, purl, fs, scorer);
      if b.raised {
        assert fs[|b.rows|] == init[|b.rows|];
      }
      forall i | 0 <= i < |all.rows|
        ensures RowOf(name, version, purl, fs[i], scorer) == Some(all.rows[i])
      {
        if i < |b.rows| {
          assert init[i] == fs[i];
          assert all.rows[i] == b.rows[i];
        }
      }
    }
  }

  /** The outcome of `update_vulns`. */
  datatype VulnsOutcome =
    | Finished     // every listed package scanned
    | Raised       // an exception other than a connection error ended the scan
    | GaveUp       // the connection failed on every attempt: the error is re-raised

  /** The `dm_vulns` table. */
  class VulnStore {
    var rows: map<VulnKey, VulnRow>

    constructor(rows: map<VulnKey, VulnRow>)
      ensures this.rows == rows
    {
      this.rows := rows;
    }

    /** Every row sits under its own key. */
    predicate Valid()
      reads this
    {
      Keyed(rows, KeyOf)
    }

    /** `insert ... ON CONFLICT ON CONSTRAINT dm_vulns_pkey DO NOTHING`. */
    method Insert(r: VulnRow)
      modifies this
      ensures rows == InsertAbsent(old(rows), KeyOf(r), r)
    {
      if KeyOf(r) !in rows {
        rows := rows[KeyOf(r) := r];
      }
    }

    /** The findings of one listed package, inserted one by one. */
    method ScanPackage(l: Listed, osv: Osv, scorer: Scorer, parse: string -> Option<Purl>)
      returns (raised: bool)
      modifies this
      ensures var b := PackageRows(l, osv, scorer, parse);
              rows == InsertAll(old(rows), KeyOf, b.rows) && raised == b.raised
    {
      if !BlankPurl(l.purl) && parse(l.purl.value).None? {
        return true;
      }
      var payload := MakePayload(l.name, l.version, l.purl);
      var findings := osv(payload);
      raised := InsertFindings(l.name, l.version, StoredPurl(l.purl), findings, scorer);
    }

    /** The rows of a package's findings, inserted one by one until a finding raises. */
    method InsertFindings(name: string, version: string, purl: Option<string>, findings: seq<Finding>,
                          scorer: Scorer)
      returns (raised: bool)
      modifies this
      ensures var b := FindingRows(name, version, purl, findings, scorer);
              rows == InsertAll(old(rows), KeyOf, b.rows) && raised == b.raised
    {
      var i := 0;
      raised := false;
      ghost var done: seq<VulnRow> := [];
      while i < |findings| && !raised
        invariant 0 <= i <= |findings|
        invariant FindingRows(name, version, purl, findings[..i], scorer) == Batch(done, raised)
        invariant rows == InsertAll(old(rows), KeyOf, done)
        decreases |findings| - i
      {
        assert findings[..i + 1][..i] == findings[..i];
        var row := RowOf(name, version, purl, findings[i], scorer);
        if row.None? {
          raised := true;
        } else {
          Insert(row.value);
          done := done + [row.value];
        }
        i := i + 1;
      }
      if raised {
        FindingsStayRaised(name, version, purl, findings, i, scorer);
      } else {
        assert findings[..i] == findings;
      }
    }

    /**
     * The scan of the listed packages, once a connection is made: each
     * package's rows inserted in turn, until an exception ends it.
     */
    method Scan(ls: seq<Listed>, osv: Osv, scorer: Scorer, parse: string -> Option<Purl>)
      returns (raised: bool)
      modifies this
      ensures var b := ScanRows(ls, osv, scorer, parse);
              rows == InsertAll(old(rows), KeyOf, b.rows) && raised == b.raised
    {
      var i := 0;
      raised := false;
      ghost var done: seq<VulnRow> := [];
      while i < |ls| && !raised
        invariant 0 <= i <= |ls|
        invariant ScanRows(ls[..i], osv, scorer, parse) == Batch(done, raised)
        invariant rows == InsertAll(old(rows), KeyOf, done)
        decreases |ls| - i
      {
        assert ls[..i + 1][..i] == ls[..i];
        ghost var before := rows;
        raised := ScanPackage(ls[i], osv, scorer, parse);
        ghost var p := PackageRows(ls[i], osv, scorer, parse);
        InsertAllConcat(old(rows), KeyOf, done, p.rows);
        done := done + p.rows;
        i := i + 1;
      }
      if raised {
        ScanStaysRaised(ls, i, osv, scorer, parse);
      } else {
        assert ls[..i] == ls;
      }
    }

    /**
     * `update_vulns`: up to `db_conn_retry` attempts at the connection and
     * the listing query, where `ok(a)` says whether attempt `a` gets
     * through, then the scan of the listed packages.
     */
    method UpdateVulns(ls: seq<Listed>, osv: Osv, scorer: Scorer, parse: string -> Option<Purl>,
                       ok: nat -> bool)
      returns (outcome: VulnsOutcome)
      modifies this
      ensures FirstSuccess(ok, 1).None? ==> outcome == GaveUp && rows == old(rows)
      ensures FirstSuccess(ok, 1).Some? ==>
                var b := ScanRows(ls, osv, scorer, parse);
                rows == InsertAll(old(rows), KeyOf, b.rows) && outcome == (if b.raised then Raised else Finished)
      ensures forall k :: k in old(rows) ==> k in rows && rows[k] == old(rows)[k]
      ensures old(Valid()) ==> Valid()
    {
      var attempt := Attempt(ok);
      if !ok(attempt) {
        return GaveUp;
      }
      var raised := Scan(ls, osv, scorer, parse);
      outcome := if raised then Raised else Finished;
      InsertAllKeeps(old(rows), KeyOf, ScanRows(ls, osv, scorer, parse).rows);
      if old(Valid()) {
        InsertAllKeyed(old(rows), KeyOf, ScanRows(ls, osv, scorer, parse).rows);
      }
    }
  }

  /** Once a finding raises, the rest of the findings add nothing. */
  lemma {:induction false} FindingsStayRaised(name: string, version: string, purl: Option<string>,
                                              fs: seq<Finding>, n: nat, scorer: Scorer)
    requires n <= |fs| && FindingRows(name, version, purl, fs[..n], scorer).raised
    ensures FindingRows(name, version, purl, fs, scorer) == FindingRows(name, version, purl, fs[..n], scorer)
    decreases |fs| - n
  {
    if n < |fs| {
      assert fs[..n + 1][..n] == fs[..n];
      assert FindingRows(name, version, purl, fs[..n + 1], scorer) == FindingRows(name, version, purl, fs[..n], scorer);
      FindingsStayRaised(name, version, purl, fs, n + 1, scorer);
    } else {
      assert fs[..n] == fs;
    }
  }
}
