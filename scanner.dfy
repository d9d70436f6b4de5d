/**
 * The source scanner: which files of a checked-out tree it reads, and the
 * set of cryptographic algorithm names it collects from them. Paths are
 * Linux paths, with `/` as the only separator.
 */
module Scanner {
  import opened Wrappers
  import opened Text

  /** `validExtensions`: the extensions of the files scanned, every one in lower case. */
  const ValidExtensions: set<string> := {
    ".abc", ".ada", ".agda", ".al", ".applescript", ".asa", ".asax", ".ascx", ".ashx", ".asm",
    ".asmx", ".asp", ".au3", ".awk", ".bas", ".bat", ".bdy", ".bpl", ".c", ".cbl",
    ".cfm", ".cl", ".clixml", ".clj", ".cls", ".cmd", ".coffee", ".cpp", ".cr", ".cs",
    ".cshtml", ".cson", ".css", ".cu", ".cxx", ".d", ".dart", ".dbm", ".dbml", ".dbpro",
    ".dbpro3", ".def", ".dg", ".dml", ".do", ".dsp", ".e", ".ecl", ".edn", ".ejs",
    ".el", ".elixir", ".elm", ".epl", ".erl", ".es", ".ex", ".exs", ".f", ".f03",
    ".f08", ".f77", ".f90", ".f95", ".feature", ".fish", ".forth", ".fpp", ".frt", ".fs",
    ".fsi", ".fsx", ".fth", ".ftn", ".fy", ".fzp", ".gameproj", ".gd", ".ged", ".gemspec",
    ".glsl", ".gml", ".gms", ".go", ".gpt", ".groovy", ".gs", ".gy", ".h", ".h++",
    ".haml", ".hbs", ".hcl", ".hh", ".hlsl", ".hoon", ".hpp", ".hs", ".htaccess", ".htc",
    ".hx", ".hxml", ".hxx", ".i", ".iced", ".icl", ".idc", ".ini", ".io", ".j",
    ".java", ".jison", ".jl", ".js", ".json", ".jsp", ".jsx", ".julia", ".kix", ".kt",
    ".l", ".less", ".lfe", ".lgt", ".lidr", ".liquid", ".lisp", ".logtalk", ".ls", ".lsp",
    ".lua", ".m", ".m4", ".mak", ".maki", ".markdown", ".mathematica", ".matlab", ".max", ".md",
    ".mel", ".mi", ".mib", ".mk", ".ml", ".mm", ".mo", ".mod", ".moo", ".moon",
    ".mq4", ".mq5", ".mqh", ".mtml", ".muf", ".mustache", ".n", ".ncl", ".nim", ".nix",
    ".nl", ".nse", ".nu", ".nut", ".o", ".odin", ".one", ".ops", ".org", ".ox",
    ".oxygene", ".p", ".p6", ".pas", ".pascal", ".pd", ".php", ".php3", ".php4", ".php5",
    ".phps", ".phpt", ".phtml", ".pig", ".pike", ".pl", ".plist", ".plsql", ".pm", ".pod",
    ".pot", ".prc", ".pro", ".proto", ".ps1", ".ps1xml", ".psm1", ".pug", ".purs", ".py",
    ".pyc", ".pyd", ".pyi", ".pyo", ".pyt", ".pyx", ".qml", ".r", ".r3", ".rake",
    ".rb", ".rbbas", ".rbi", ".rbx", ".rc", ".rcp", ".re", ".reb", ".resx", ".rhtml",
    ".rkt", ".rktl", ".robo", ".rpy", ".rql", ".rs", ".rst", ".ruby", ".s", ".sage",
    ".scala", ".scm", ".scss", ".sh", ".sls", ".sml", ".sql", ".srt", ".ss", ".st",
    ".stl", ".styl", ".stylus", ".swift", ".swm", ".t", ".tcl", ".tex", ".textile", ".toml",
    ".ts", ".tsx", ".twig", ".txl", ".v", ".vala", ".vapi", ".vb", ".vba", ".vbs",
    ".vcl", ".vh", ".vhd", ".vhdl", ".vim", ".x", ".xaml", ".xht", ".xhtml", ".xlsm",
    ".xpl", ".xsd", ".xsl", ".y", ".yaml", ".yang", ".yap", ".yml", ".yxx", ".zsh"
  }

  /** Go's `strings.TrimPrefix(path, root + "/")`: the path relative to the root. */
  function Relative(root: string, path: string): (rel: string)
    ensures IsSuffix(rel, path)
    ensures IsPrefix(root + "/", path) ==> path == root + "/" + rel
    ensures !IsPrefix(root + "/", path) ==> rel == path
  {
    if IsPrefix(root + "/", path) then path[|root| + 1..] else path
  }

  /**
   * Go's `filepath.Ext`: the suffix of the final path element from its last
   * `.` on, or "" when the final element has no `.`.
   */
  function Ext(p: string): (e: string)
    ensures IsSuffix(e, p)
    ensures e != [] ==> e[0] == '.' && '/' !in e && '.' !in e[1..]
    decreases |p|
  {
    if p == [] || p[|p| - 1] == '/' then []
    else if p[|p| - 1] == '.' then "."
    else
      var e := Ext(p[..|p| - 1]);
      if e == [] then [] else e + [p[|p| - 1]]
  }

  /** Every `.` of the path is followed, somewhere later, by a `/`. */
  predicate DotsClosed(p: string) {
    forall i :: 0 <= i < |p| && p[i] == '.' ==> '/' in p[i + 1..]
  }

  /** The extension is "" exactly when every `.` of the path is followed by a `/`. */
  lemma {:induction false} ExtEmpty(p: string)
    ensures Ext(p) == [] <==> DotsClosed(p)
    decreases |p|
  {
    if p != [] {
      var init, c := p[..|p| - 1], p[|p| - 1];
      if c == '/' {
        forall i | 0 <= i < |p| && p[i] == '.'
          ensures '/' in p[i + 1..]
        {
          assert p[i + 1..][|p| - i - 2] == '/';
        }
      } else if c == '.' {
        assert p[|p|..] == [];
      } else {
        ExtEmpty(init);
        DotsClosedExtended(init, c);
      }
    }
  }

  /** A character that is neither `.` nor `/` appended to the path changes nothing about its dots. */
  lemma DotsClosedExtended(init: string, c: char)
    requires c != '.' && c != '/'
    ensures DotsClosed(init + [c]) <==> DotsClosed(init)
  {
    var p := init + [c];
    forall i | 0 <= i < |init|
      ensures p[i] == init[i] && p[i + 1..] == init[i + 1..] + [c]
    {
    }
  }

  /**
   * `shouldIgnore`: whether the walk leaves out `path`, found under `root`.
   * `binary` stands for `isBinaryFile` and `ignored` for the `.gitignore`
   * patterns' `MatchesPath`; both are asked about the relative path.
   */
  function ShouldIgnore(root: string, path: string, isDir: bool, binary: string -> bool, ignored: string -> bool)
    : (r: bool)
    ensures r ==> path != root
  {
    if root == path then false
    else
      var rel := Relative(root, path);
      if IsSuffix(".git", rel) then true
      else if !isDir && Lower(Ext(rel)) !in ValidExtensions then true
      else if !isDir && binary(rel) then true
      else ignored(rel)
  }

  /**
   * A path ending in `.git` is left out, file or directory: the relative
   * path keeps that ending, since `.git` holds no `/`.
   */
  lemma GitSuffixIgnored(root: string, path: string, isDir: bool, binary: string -> bool, ignored: string -> bool)
    requires path != root && IsSuffix(".git", path)
    ensures ShouldIgnore(root, path, isDir, binary, ignored)
  {
    var rel := Relative(root, path);
    if IsPrefix(root + "/", path) {
      assert path == root + "/" + rel;
      assert path[|root|] == '/';
      forall k | |path| - 4 <= k < |path|
        ensures path[k] != '/'
      {
        assert path[k] == ".git"[k - (|path| - 4)];
      }
      assert |rel| >= 4;
      assert rel[|rel| - 4..] == path[|path| - 4..];
    }
  }

  /**
   * A directory is decided by the `.git` check and the `.gitignore` patterns
   * alone: neither the whitelist nor the binary check applies.
   */
  lemma DirectoryDecision(root: string, path: string, binary: string -> bool, ignored: string -> bool)
    ensures var rel := Relative(root, path);
            ShouldIgnore(root, path, true, binary, ignored) <==>
              path != root && (IsSuffix(".git", rel) || ignored(rel))
  {
  }

  /**
   * A file whose lower-cased extension is not whitelisted is left out
   * whatever the binary check and the `.gitignore` patterns say.
   */
  lemma ExtensionFirst(root: string, path: string, binary: string -> bool, ignored: string -> bool)
    requires path != root && Lower(Ext(Relative(root, path))) !in ValidExtensions
    ensures ShouldIgnore(root, path, false, binary, ignored)
  {
  }

  /** A file is scanned exactly when every check lets it through. */
  lemma FileDecision(root: string, path: string, binary: string -> bool, ignored: string -> bool)
    ensures var rel := Relative(root, path);
            !ShouldIgnore(root, path, false, binary, ignored) <==>
              path == root ||
              (!IsSuffix(".git", rel) && Lower(Ext(rel)) in ValidExtensions && !binary(rel) && !ignored(rel))
  {
  }

  /** Taking the extension and lowering the case commute. */
  lemma {:induction false} ExtLower(p: string)
    ensures Ext(Lower(p)) == Lower(Ext(p))
    decreases |p|
  {
    if p != [] {
      var init, c := p[..|p| - 1], p[|p| - 1];
      LowerSnoc(init, c);
      assert p == init + [c];
      var lp := Lower(init) + [LowerChar(c)];
      assert lp[..|lp| - 1] == Lower(init) && lp[|lp| - 1] == LowerChar(c);
      if c == '/' {
        assert Ext(lp) == [] == Ext(p);
      } else if c == '.' {
        assert Ext(lp) == "." == Ext(p);
        assert Lower(".") == ".";
      } else {
        ExtLower(init);
        var e := Ext(init);
        assert LowerChar(c) != '/' && LowerChar(c) != '.';
        assert Ext(lp) == if Lower(e) == [] then [] else Lower(e) + [LowerChar(c)];
        if e != [] {
          LowerSnoc(e, c);
        }
      }
    }
  }

  /** Lowering the case goes character by character. */
  lemma LowerSnoc(s: string, c: char)
    ensures Lower(s + [c]) == Lower(s) + [LowerChar(c)]
  {
  }

  /**
   * The whitelist does not see case: two files whose relative paths differ
   * only in case, with the same `.git` ending and the same answers from
   * the binary check and the patterns, are both scanned or both left out.
   * So `Main.PY` is scanned like `main.py`, although `.PY` itself is not
   * in the whitelist.
   */
  lemma ExtensionCaseBlind(root: string, p: string, q: string, binary: string -> bool, ignored: string -> bool)
    requires p != root && q != root
    requires Lower(Relative(root, p)) == Lower(Relative(root, q))
    requires IsSuffix(".git", Relative(root, p)) == IsSuffix(".git", Relative(root, q))
    requires binary(Relative(root, p)) == binary(Relative(root, q))
    requires ignored(Relative(root, p)) == ignored(Relative(root, q))
    ensures ShouldIgnore(root, p, false, binary, ignored) == ShouldIgnore(root, q, false, binary, ignored)
  {
    ExtLower(Relative(root, p));
    ExtLower(Relative(root, q));
  }

  /** A Python file with an upper-case extension is not left out for its extension. */
  lemma UpperExtensionLowered()
    ensures Lower(Ext("src/Main.PY")) in ValidExtensions
  {
    assert Ext("src/Main.PY") == ".PY";
    assert Lower(".PY") == ".py";
  }

  /** What the walk does with an entry. */
  datatype Visit =
    | Descend   // a directory entered
    | SkipDir   // `filepath.SkipDir`: a directory and everything below it left out
    | Pass      // a file left out
    | Scan      // a file handed to `processFile`

  /** The callback given to `filepath.Walk`, for an entry read without error. */
  function VisitEntry(root: string, path: string, isDir: bool, binary: string -> bool, ignored: string -> bool)
    : (v: Visit)
    ensures isDir <==> v.Descend? || v.SkipDir?
    ensures v.SkipDir? ==> path != root
  {
    if isDir then
      if ShouldIgnore(root, path, true, binary, ignored) then SkipDir else Descend
    else if ShouldIgnore(root, path, false, binary, ignored) then Pass
    else Scan
  }

  /** The walk always enters its root directory. */
  lemma RootEntered(root: string, binary: string -> bool, ignored: string -> bool)
    ensures VisitEntry(root, root, true, binary, ignored) == Descend
  {
  }

  /** The distinct strings of a sequence. */
  function Elems(ms: seq<string>): set<string> {
    set k | 0 <= k < |ms| :: ms[k]
  }

  /** Every match of `findAll` over the lines, line by line. */
  function Matches(lines: seq<string>, findAll: string -> seq<string>): set<string>
    decreases |lines|
  {
    if lines == [] then {}
    else Matches(lines[..|lines| - 1], findAll) + Elems(findAll(lines[|lines| - 1]))
  }

  /** A name is collected exactly when it is a match on some line. */
  lemma {:induction false} MatchesExactly(lines: seq<string>, findAll: string -> seq<string>, x: string)
    ensures x in Matches(lines, findAll) <==>
            exists i, j :: 0 <= i < |lines| && 0 <= j < |findAll(lines[i])| && findAll(lines[i])[j] == x
    decreases |lines|
  {
    if lines != [] {
      var init := lines[..|lines| - 1];
      MatchesExactly(init, findAll, x);
      if exists i, j :: 0 <= i < |lines| && 0 <= j < |findAll(lines[i])| && findAll(lines[i])[j] == x {
        var i, j :| 0 <= i < |lines| && 0 <= j < |findAll(lines[i])| && findAll(lines[i])[j] == x;
        if i < |init| {
          assert init[i] == lines[i];
        } else {
          assert x in Elems(findAll(lines[|lines| - 1]));
        }
      }
      if x in Elems(findAll(lines[|lines| - 1])) {
        var j :| 0 <= j < |findAll(lines[|lines| - 1])| && findAll(lines[|lines| - 1])[j] == x;
      }
      if x in Matches(init, findAll) {
        var i, j :| 0 <= i < |init| && 0 <= j < |findAll(init[i])| && findAll(init[i])[j] == x;
        assert init[i] == lines[i];
      }
    }
  }

  /** Scanning `a` and then `b` collects what each collects. */
  lemma {:induction false} MatchesConcat(a: seq<string>, b: seq<string>, findAll: string -> seq<string>)
    ensures Matches(a + b, findAll) == Matches(a, findAll) + Matches(b, findAll)
    decreases |b|
  {
    if b == [] {
      assert a + b == a;
    } else {
      var init := b[..|b| - 1];
      MatchesConcat(a, init, findAll);
      assert (a + b)[..|a + b| - 1] == a + init;
      assert (a + b)[|a + b| - 1] == b[|b| - 1];
    }
  }

  /** The order in which the walk reaches the files does not change what is collected. */
  lemma MatchesOrderFree(a: seq<string>, b: seq<string>, findAll: string -> seq<string>)
    ensures Matches(a + b, findAll) == Matches(b + a, findAll)
  {
    MatchesConcat(a, b, findAll);
    MatchesConcat(b, a, findAll);
  }

  /** `algorithmSet`: the distinct algorithm names found so far. */
  class AlgorithmSet {
    var found: set<string>

    constructor()
      ensures found == {}
    {
      found := {};
    }

    /**
     * `processFile`: `lines` are the lines `bufio.Scanner` yields, None when
     * the file cannot be opened. The scanner stops without a word at the
     * first line longer than its 64 KiB buffer, and the error is never
     * read, so `lines` may be only a prefix of the file; `findAll` stands for the algorithm regular
     * expression's `FindAllString`. Matches are only ever added.
     */
    method ProcessFile(lines: Option<seq<string>>, findAll: string -> seq<string>)
      modifies this
      ensures lines.None? ==> found == old(found)
      ensures lines.Some? ==> found == old(found) + Matches(lines.value, findAll)
    {
      if lines.None? {
        return;
      }
      var ls := lines.value;
      var i := 0;
      while i < |ls|
        invariant 0 <= i <= |ls|
        invariant found == old(found) + Matches(ls[..i], findAll)
      {
        var ms := findAll(ls[i]);
        var j := 0;
        while j < |ms|
          invariant 0 <= j <= |ms|
          invariant found == old(found) + Matches(ls[..i], findAll) + Elems(ms[..j])
        {
          assert Elems(ms[..j + 1]) == Elems(ms[..j]) + {ms[j]} by {
            assert forall k :: 0 <= k < j ==> ms[..j + 1][k] == ms[..j][k];
          }
          found := found + {ms[j]};
          j := j + 1;
        }
        assert ms[..j] == ms;
        assert ls[..i + 1][..i] == ls[..i];
        i := i + 1;
      }
      assert ls[..i] == ls;
    }
  }
}
