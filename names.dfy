/**
 * Catalog naming (main.py): the emptiness tests, `clean_name`, the promotion
 * of a lone version to the variant, and the two names built from a component
 * name, variant and version: the qualified name `name;variant;version` that a
 * lookup asks for and the "check" name (last dot-segment of the name plus the
 * same qualifiers) that a lookup's answer is compared with.
 */
module Names {
  import opened Wrappers
  import opened Text

  /** A Python value handed to `is_empty`: None, a string or an int. */
  datatype Arg = Null | Str(s: string) | Number(n: int)

  /** `is_empty`: None or blank; an int goes through `str` first and is never blank. */
  predicate IsEmpty(a: Arg) {
    match a
    case Null => true
    case Str(s) => s == [] || Strip(s) == []
    case Number(_) => false
  }

  /** `is_not_empty`. */
  function IsNotEmpty(a: Arg): (r: bool)
    ensures r <==> !IsEmpty(a)
  {
    match a
    case Null => false
    case Str(s) => s != [] && Strip(s) != []
    case Number(_) => true
  }

  /** A string is empty in the sense of `is_empty` exactly when it is all white space. */
  lemma IsEmptyIffBlank(s: string)
    ensures IsEmpty(Str(s)) <==> forall i :: 0 <= i < |s| ==> IsSpace(s[i])
  {
    StripBlank(s);
  }

  /**
   * The ten rewrites of `clean_name`, applied in the order the source applies
   * them: the first five, then the last five.
   */
  function CleanText(s: string): string {
    CleanBack(CleanFront(s))
  }

  /** Rewrites one to five: `.`, `-` to `_`; `/` to `.`; `+`, `:` to `_`. */
  function CleanFront(s: string): string {
    var s1 := Replace(s, ".", "_");
    var s2 := Replace(s1, "-", "_");
    var s3 := Replace(s2, "/", ".");
    var s4 := Replace(s3, "+", "_");
    Replace(s4, ":", "_")
  }

  /** Rewrites six to ten: `~` to `_`; `(`, `)` removed; `#` to `_`; `@` removed. */
  function CleanBack(s: string): string {
    var s6 := Replace(s, "~", "_");
    var s7 := Replace(s6, "(", "");
    var s8 := Replace(s7, ")", "");
    var s9 := Replace(s8, "#", "_");
    Replace(s9, "@", "")
  }

  /**
   * `clean_name`: None stays None, a string is rewritten character by
   * character; `CleanNameIsReplaceChain` shows this is the source's chain of
   * ten replacements.
   */
  function CleanName(name: Option<string>): (r: Option<string>)
    ensures r.None? <==> name.None?
  {
    match name
    case None => None
    case Some(s) => Some(CleanChars(s))
  }

  /** `clean_name` is the chain of ten replacements, and never lengthens a name. */
  lemma CleanNameIsReplaceChain(s: string)
    ensures CleanName(Some(s)) == Some(CleanText(s))
    ensures |CleanText(s)| <= |s|
  {
    CleanIsCharwise(s);
    CleanCharsLength(s);
  }

  /** What one input character becomes after all ten rewrites. */
  function CleanChar(c: char): string {
    if c in ".-+:~#" then "_"
    else if c == '/' then "."
    else if c in "()@" then ""
    else [c]
  }

  /** The rewrites applied character by character. */
  function CleanChars(s: string): string
    decreases |s|
  {
    if s == [] then [] else CleanChar(s[0]) + CleanChars(s[1..])
  }

  /** The characters `clean_name` never leaves in its output. */
  const Removed: string := "-+:~()#@/"

  lemma ReplaceStep(t: string, d: char, rep: string)
    requires |t| <= 1
    ensures Replace(t, [d], rep) == if t == [] then [] else if t[0] == d then rep else t
  {
    if t != [] {
      ReplaceCharSingle(t[0], d, rep);
      assert t == [t[0]];
    }
  }

  lemma CleanFrontSingle(c: char)
    ensures CleanFront([c]) == if c in ".-+:" then "_" else if c == '/' then "." else [c]
  {
    var s1 := Replace([c], ".", "_");
    ReplaceStep([c], '.', "_");
    var s2 := Replace(s1, "-", "_");
    ReplaceStep(s1, '-', "_");
    var s3 := Replace(s2, "/", ".");
    ReplaceStep(s2, '/', ".");
    var s4 := Replace(s3, "+", "_");
    ReplaceStep(s3, '+', "_");
    ReplaceStep(s4, ':', "_");
  }

  lemma CleanBackSingle(d: char)
    ensures CleanBack([d]) == if d in "~#" then "_" else if d in "()@" then "" else [d]
  {
    var s6 := Replace([d], "~", "_");
    ReplaceStep([d], '~', "_");
    var s7 := Replace(s6, "(", "");
    ReplaceStep(s6, '(', "");
    var s8 := Replace(s7, ")", "");
    ReplaceStep(s7, ')', "");
    var s9 := Replace(s8, "#", "_");
    ReplaceStep(s8, '#', "_");
    ReplaceStep(s9, '@', "");
  }

  lemma CleanFrontConcat(x: string, y: string)
    ensures CleanFront(x + y) == CleanFront(x) + CleanFront(y)
  {
    var x1, y1 := Replace(x, ".", "_"), Replace(y, ".", "_");
    ReplaceCharConcat(x, y, '.', "_");
    var x2, y2 := Replace(x1, "-", "_"), Replace(y1, "-", "_");
    ReplaceCharConcat(x1, y1, '-', "_");
    var x3, y3 := Replace(x2, "/", "."), Replace(y2, "/", ".");
    ReplaceCharConcat(x2, y2, '/', ".");
    var x4, y4 := Replace(x3, "+", "_"), Replace(y3, "+", "_");
    ReplaceCharConcat(x3, y3, '+', "_");
    ReplaceCharConcat(x4, y4, ':', "_");
  }

  lemma CleanBackConcat(x: string, y: string)
    ensures CleanBack(x + y) == CleanBack(x) + CleanBack(y)
  {
    var x6, y6 := Replace(x, "~", "_"), Replace(y, "~", "_");
    ReplaceCharConcat(x, y, '~', "_");
    var x7, y7 := Replace(x6, "(", ""), Replace(y6, "(", "");
    ReplaceCharConcat(x6, y6, '(', "");
    var x8, y8 := Replace(x7, ")", ""), Replace(y7, ")", "");
    ReplaceCharConcat(x7, y7, ')', "");
    var x9, y9 := Replace(x8, "#", "_"), Replace(y8, "#", "_");
    ReplaceCharConcat(x8, y8, '#', "_");
    ReplaceCharConcat(x9, y9, '@', "");
  }

  /** What one character becomes under rewrites one to five. */
  function FrontChar(c: char): string {
    if c in ".-+:" then "_" else if c == '/' then "." else [c]
  }

  /** What one character becomes under rewrites six to ten. */
  function BackChar(d: char): string {
    if d in "~#" then "_" else if d in "()@" then "" else [d]
  }

  function FrontChars(s: string): string
    decreases |s|
  {
    if s == [] then [] else FrontChar(s[0]) + FrontChars(s[1..])
  }

  function BackChars(s: string): string
    decreases |s|
  {
    if s == [] then [] else BackChar(s[0]) + BackChars(s[1..])
  }

  lemma {:induction false} FrontIsCharwise(s: string)
    ensures CleanFront(s) == FrontChars(s)
    decreases |s|
  {
    if s == [] {
      assert CleanFront(s) == [];
    } else {
      FrontIsCharwise(s[1..]);
      CleanFrontSingle(s[0]);
      CleanFrontConcat([s[0]], s[1..]);
      assert [s[0]] + s[1..] == s;
    }
  }

  lemma {:induction false} BackIsCharwise(s: string)
    ensures CleanBack(s) == BackChars(s)
    decreases |s|
  {
    if s == [] {
      assert CleanBack(s) == [];
    } else {
      BackIsCharwise(s[1..]);
      CleanBackSingle(s[0]);
      CleanBackConcat([s[0]], s[1..]);
      assert [s[0]] + s[1..] == s;
    }
  }

  lemma {:induction false} BackCharsConcat(x: string, y: string)
    ensures BackChars(x + y) == BackChars(x) + BackChars(y)
    decreases |x|
  {
    if x == [] {
      assert x + y == y;
    } else {
      assert (x + y)[1..] == x[1..] + y;
      BackCharsConcat(x[1..], y);
    }
  }

  lemma BackOfFront(c: char)
    ensures BackChars(FrontChar(c)) == CleanChar(c)
  {
    var f := FrontChar(c);
    if |f| == 1 {
      assert f[1..] == [];
    }
  }

  lemma {:induction false} CharsCompose(s: string)
    ensures BackChars(FrontChars(s)) == CleanChars(s)
    decreases |s|
  {
    if s != [] {
      CharsCompose(s[1..]);
      BackCharsConcat(FrontChar(s[0]), FrontChars(s[1..]));
      BackOfFront(s[0]);
    }
  }

  /** `clean_name` rewrites each character independently of its neighbours. */
  lemma CleanIsCharwise(s: string)
    ensures CleanText(s) == CleanChars(s)
  {
    FrontIsCharwise(s);
    BackIsCharwise(CleanFront(s));
    CharsCompose(s);
  }

  lemma {:induction false} CleanCharsLength(s: string)
    ensures |CleanChars(s)| <= |s|
    decreases |s|
  {
    if s != [] {
      CleanCharsLength(s[1..]);
    }
  }

  lemma CleanCharShape(c: char)
    ensures forall d :: d in Removed ==> d !in CleanChar(c)
    ensures Count(CleanChar(c), '.') == if c == '/' then 1 else 0
  {
    var r := CleanChar(c);
    if |r| == 1 {
      assert r[1..] == [];
    }
  }

  lemma {:induction false} CleanCharsShape(s: string)
    ensures forall c :: c in Removed ==> c !in CleanChars(s)
    ensures Count(CleanChars(s), '.') == Count(s, '/')
    decreases |s|
  {
    if s != [] {
      CleanCharsShape(s[1..]);
      CleanCharShape(s[0]);
      CountConcat(CleanChar(s[0]), CleanChars(s[1..]), '.');
    }
  }

  /**
   * The output of `clean_name` holds none of `- + : ~ ( ) # @ /`, and its
   * periods are exactly as many as the slashes of the input: every `.` left
   * in the output was a `/`, since the input's own periods became `_`.
   */
  lemma CleanNameShape(s: string)
    ensures forall c :: c in Removed ==> c !in CleanText(s)
    ensures Count(CleanText(s), '.') == Count(s, '/')
  {
    CleanIsCharwise(s);
    CleanCharsShape(s);
  }

  lemma {:induction false} CleanCharsKeeps(s: string)
    requires '.' !in s
    requires forall c :: c in Removed ==> c !in s
    ensures CleanChars(s) == s
    decreases |s|
  {
    if s != [] {
      CleanCharsKeeps(s[1..]);
      assert s[0] in s;
      assert CleanChar(s[0]) == [s[0]];
      assert s == [s[0]] + s[1..];
    }
  }

  /** Cleaning works piece by piece. */
  lemma {:induction false} CleanCharsConcat(x: string, y: string)
    ensures CleanChars(x + y) == CleanChars(x) + CleanChars(y)
    decreases |x|
  {
    if x == [] {
      assert x + y == y;
    } else {
      assert (x + y)[0] == x[0];
      assert (x + y)[1..] == x[1..] + y;
      CleanCharsConcat(x[1..], y);
    }
  }

  /** Turning periods into underscores before cleaning changes nothing: cleaning does it anyway. */
  lemma {:induction false} CleanCharsDots(s: string)
    ensures CleanChars(Replace(s, ".", "_")) == CleanChars(s)
    decreases |s|
  {
    if s != [] {
      CleanCharsDots(s[1..]);
      assert IsPrefix(".", s) <==> s[0] == '.';
      if s[0] == '.' {
        assert Replace(s, ".", "_") == "_" + Replace(s[1..], ".", "_");
        CleanCharsConcat("_", Replace(s[1..], ".", "_"));
      } else {
        assert Replace(s, ".", "_") == [s[0]] + Replace(s[1..], ".", "_");
        CleanCharsConcat([s[0]], Replace(s[1..], ".", "_"));
      }
    }
  }

  /**
   * `clean_name` is not idempotent: cleaning a cleaned name changes it
   * exactly when the original held a `/`, which the first pass turned into
   * a `.` and the second pass turns into a `_`.
   */
  lemma CleanIdempotentIff(s: string)
    ensures CleanText(CleanText(s)) == CleanText(s) <==> '/' !in s
  {
    var t := CleanText(s);
    CleanNameShape(s);
    CleanNameShape(t);
    CountZero(s, '/');
    CountZero(t, '.');
    CountZero(t, '/');
    if '/' !in s {
      CleanIsCharwise(t);
      CleanCharsKeeps(t);
    } else {
      assert '/' in Removed;
      assert Count(CleanText(t), '.') == 0 != Count(t, '.');
    }
  }

  /** A second pass leaves a result that further passes no longer change. */
  lemma CleanTwiceStable(s: string)
    ensures CleanText(CleanText(CleanText(s))) == CleanText(CleanText(s))
  {
    CleanNameShape(s);
    assert '/' in Removed;
    CleanIdempotentIff(CleanText(s));
  }

  /** A character `clean_name` leaves as it is. */
  predicate Plain(c: char) {
    c != '.' && c !in Removed
  }

  /**
   * The witness of non-idempotence: `x/y` cleans to `x.y`, which cleans to
   * `x_y` (for instance `a/b`, `a.b`, `a_b`).
   */
  lemma CleanNotIdempotent(x: char, y: char)
    requires Plain(x) && Plain(y)
    ensures CleanName(Some([x, '/', y])) == Some([x, '.', y])
    ensures CleanName(CleanName(Some([x, '/', y]))) == Some([x, '_', y])
  {
    CleanIsCharwise([x, '/', y]);
    CleanIsCharwise([x, '.', y]);
    CharsOf3(x, '/', y);
    CharsOf3(x, '.', y);
    PlainKept(x);
    PlainKept(y);
    assert CleanChar('/') == ['.'];
    assert CleanChar('.') == ['_'];
    assert CleanText([x, '/', y]) == [x, '.', y];
    assert CleanText([x, '.', y]) == [x, '_', y];
  }

  lemma PlainKept(c: char)
    requires Plain(c)
    ensures CleanChar(c) == [c]
  {
    assert c !in ".-+:~#" by {
      assert forall d :: d in ".-+:~#" ==> d == '.' || d in Removed;
    }
    assert c !in "()@" by {
      assert forall d :: d in "()@" ==> d in Removed;
    }
  }

  /** `clean_name` keeps the `;` that separates a name from its version. */
  lemma SemicolonKept()
    ensures CleanChars(";") == ";"
  {
    assert Plain(';');
    PlainKept(';');
    assert ";"[1..] == [];
  }

  lemma CharsOf3(a: char, b: char, c: char)
    ensures CleanChars([a, b, c]) == CleanChar(a) + CleanChar(b) + CleanChar(c)
  {
    assert [a, b, c][1..] == [b, c];
    assert [b, c][1..] == [c];
    assert [c][1..] == [];
    assert CleanChars([c]) == CleanChar(c);
    assert CleanChars([b, c]) == CleanChar(b) + CleanChar(c);
  }

  /** Python's `s is None or s == ""`. */
  predicate Blank(o: Option<string>) {
    o.None? || o.value == []
  }

  /**
   * A lone version is promoted to the variant: when the variant is blank and
   * the version is not, the version becomes the variant and the version None.
   */
  function Promote(variant: Option<string>, version: Option<string>): (r: (Option<string>, Option<string>))
    ensures !Blank(r.1) ==> !Blank(r.0)
    ensures Blank(variant) && !Blank(version) ==> r == (version, None)
    ensures !(Blank(variant) && !Blank(version)) ==> r == (variant, version)
  {
    if Blank(variant) && !Blank(version) then (version, None) else (variant, version)
  }

  /** Promoting twice is promoting once. */
  lemma PromoteIdempotent(variant: Option<string>, version: Option<string>)
    ensures Promote(Promote(variant, version).0, Promote(variant, version).1) == Promote(variant, version)
  {
  }

  /**
   * `name`, `name;variant` or `name;variant;version`: a qualifier appears
   * only when it and every qualifier before it are non-blank.
   */
  function Qualify(base: string, variant: Option<string>, version: Option<string>): string {
    if !Blank(variant) && !Blank(version) then base + ";" + variant.value + ";" + version.value
    else if !Blank(variant) then base + ";" + variant.value
    else base
  }

  /** The qualifiers `Qualify` keeps, in order. */
  function Qualifiers(variant: Option<string>, version: Option<string>): seq<string> {
    if !Blank(variant) && !Blank(version) then [variant.value, version.value]
    else if !Blank(variant) then [variant.value]
    else []
  }

  predicate NoSemicolon(o: Option<string>) {
    o.Some? ==> ';' !in o.value
  }

  /**
   * A qualified name splits back into its base and the kept qualifiers when
   * none of them holds a `;` (`clean_name` does not remove `;`).
   */
  lemma QualifyRoundTrip(base: string, variant: Option<string>, version: Option<string>)
    requires ';' !in base && NoSemicolon(variant) && NoSemicolon(version)
    ensures Split(Qualify(base, variant, version), ';') == [base] + Qualifiers(variant, version)
  {
    var parts := [base] + Qualifiers(variant, version);
    assert Qualify(base, variant, version) == Join(parts, ';') by {
      if !Blank(variant) && !Blank(version) {
        assert parts[1..] == [variant.value, version.value];
        assert parts[1..][1..] == [version.value];
        assert Join(parts[1..], ';') == variant.value + [';'] + version.value;
      } else if !Blank(variant) {
        assert parts[1..] == [variant.value];
        assert Join(parts[1..], ';') == variant.value;
      }
    }
    SplitJoin(parts, ';');
  }

  /** The check name's base: the last dot-segment of the name, or "" when it has no dot. */
  function ShortName(compname: string): (r: string)
    ensures '.' !in r
    ensures '.' !in compname ==> r == ""
    ensures '.' in compname ==> IsSuffix("." + r, compname)
  {
    LastSegmentShape(compname, '.');
    if '.' in compname then
      var r := LastSegment(compname, '.');
      assert compname[|compname| - |r| - 1..] == "." + r;
      r
    else ""
  }

  /** The name a lookup's answer is compared with (main.py `check_compname`). */
  function CheckName(compname: string, variant: Option<string>, version: Option<string>): string {
    Qualify(ShortName(compname), variant, version)
  }

  /** `update_name`'s base: `compname.split(".")[-1]`, the whole name when it has no dot. */
  function RenameBase(compname: string): (r: string)
    ensures '.' !in r
    ensures '.' !in compname ==> r == compname
    ensures '.' in compname ==> r == ShortName(compname)
  {
    LastSegmentShape(compname, '.');
    LastSegment(compname, '.')
  }
}
