/**
 * Optional values, as returned by the service's lookups (`None` in Python).
 */
module Wrappers {

  datatype Option<+T> = None | Some(value: T) {

    /** The value, or `default` when there is none (`d.get(key, default)`). */
    function GetOr(default: T): T {
      match this
      case Some(v) => v
      case None => default
    }
  }
}

/**
 * The string operations the service relies on, with the semantics of the
 * Python `str` methods and Go `strings` functions it calls. Characters are
 * treated as ASCII: case mapping and white space outside ASCII are not modelled.
 */
module Text {

  predicate IsPrefix(p: string, s: string) {
    |p| <= |s| && s[..|p|] == p
  }

  predicate IsSuffix(p: string, s: string) {
    |p| <= |s| && s[|s| - |p|..] == p
  }

  /** Python's `sub in s`. */
  predicate Contains(s: string, sub: string)
    decreases |s|
  {
    IsPrefix(sub, s) || (s != [] && Contains(s[1..], sub))
  }

  /** How many times `c` occurs in `s`. */
  function Count(s: string, c: char): nat
    decreases |s|
  {
    if s == [] then 0 else (if s[0] == c then 1 else 0) + Count(s[1..], c)
  }

  lemma {:induction false} CountConcat(x: string, y: string, c: char)
    ensures Count(x + y, c) == Count(x, c) + Count(y, c)
    decreases |x|
  {
    if x != [] {
      assert (x + y)[1..] == x[1..] + y;
      assert (x + y)[0] == x[0];
      CountConcat(x[1..], y, c);
    } else {
      assert x + y == y;
    }
  }

  lemma {:induction false} CountZero(s: string, c: char)
    ensures Count(s, c) == 0 <==> c !in s
    decreases |s|
  {
    if s != [] {
      CountZero(s[1..], c);
      assert c in s <==> s[0] == c || c in s[1..];
    }
  }

  /**
   * Python's `s.replace(pat, rep)`: every occurrence of `pat`, found left to
   * right without overlap, is replaced by `rep`.
   */
  function Replace(s: string, pat: string, rep: string): string
    requires pat != []
    decreases |s|
  {
    if IsPrefix(pat, s) then rep + Replace(s[|pat|..], pat, rep)
    else if s == [] then []
    else [s[0]] + Replace(s[1..], pat, rep)
  }

  /** Replacing a pattern that does not occur changes nothing. */
  lemma {:induction false} ReplaceAbsent(s: string, pat: string, rep: string)
    requires pat != []
    requires !Contains(s, pat)
    ensures Replace(s, pat, rep) == s
    decreases |s|
  {
    if s != [] {
      ReplaceAbsent(s[1..], pat, rep);
    }
  }

  /** Replacing a single character works character by character. */
  lemma {:induction false} ReplaceCharConcat(x: string, y: string, c: char, rep: string)
    ensures Replace(x + y, [c], rep) == Replace(x, [c], rep) + Replace(y, [c], rep)
    decreases |x|
  {
    if x != [] {
      assert (x + y)[1..] == x[1..] + y;
      assert (x + y)[0] == x[0];
      assert IsPrefix([c], x + y) <==> x[0] == c;
      assert IsPrefix([c], x) <==> x[0] == c;
      ReplaceCharConcat(x[1..], y, c, rep);
    } else {
      assert x + y == y;
    }
  }

  /** Replacing a character by a string without it leaves none of it. */
  lemma {:induction false} ReplaceCharGone(s: string, c: char, rep: string)
    requires c !in rep
    ensures c !in Replace(s, [c], rep)
    decreases |s|
  {
    if s != [] {
      ReplaceCharGone(s[1..], c, rep);
      assert IsPrefix([c], s) <==> s[0] == c;
    }
  }

  lemma ReplaceCharSingle(d: char, c: char, rep: string)
    ensures Replace([d], [c], rep) == if d == c then rep else [d]
  {
    assert [d][1..] == [];
    assert Replace([], [c], rep) == [];
    assert [d][..1] == [d];
    assert IsPrefix([c], [d]) <==> d == c;
  }

  lemma ReplaceEmpty(pat: string, rep: string)
    requires pat != []
    ensures Replace([], pat, rep) == []
  {
  }

  /** Regrouping a literal split at a character, with a tail appended. */
  lemma SplitAt(x: string, a: string, c: char, rest: string, p: string)
    requires x == a + [c] + rest
    ensures x + p == a + [c] + (rest + p)
  {
  }

  /** Replacing a pattern that cannot occur, by `AbsentByAnchor`, changes nothing. */
  lemma AnchoredKeep(a: string, b: string, c: char, pat: string, rep: string, k: nat)
    requires 0 < k < |pat| && pat[k] == c
    requires c !in a && c !in b
    requires k > |a| || a[|a| - k] != pat[0]
    ensures Replace(a + [c] + b, pat, rep) == a + [c] + b
  {
    AbsentByAnchor(a, b, c, pat, k, 0);
    ReplaceAbsent(a + [c] + b, pat, rep);
  }

  /** `AnchoredKeep` for a literal `x` split at `c`, with a tail `p`. */
  lemma AnchoredKeepAt(x: string, a: string, c: char, rest: string, p: string, pat: string, rep: string, k: nat)
    requires x == a + [c] + rest
    requires 0 < k < |pat| && pat[k] == c
    requires c !in a && c !in rest && c !in p
    requires k > |a| || a[|a| - k] != pat[0]
    ensures Replace(x + p, pat, rep) == x + p
  {
    SplitAt(x, a, c, rest, p);
    AnchoredKeep(a, rest + p, c, pat, rep, k);
  }

  /** A leading pattern is replaced, and the tail, lacking `c`, holds no other. */
  lemma ReplaceLeading(pat: string, p: string, rep: string, c: char)
    requires c in pat && c !in p
    ensures Replace(pat + p, pat, rep) == rep + p
  {
    ReplacePrefix(pat, p, rep);
    AbsentByChar(p, pat, c);
    ReplaceAbsent(p, pat, rep);
  }

  /** A one-character pattern occurs exactly when the character does. */
  lemma {:induction false} ContainsChar(s: string, c: char)
    ensures Contains(s, [c]) <==> c in s
    decreases |s|
  {
    if s != [] {
      ContainsChar(s[1..], c);
      assert c in s <==> s[0] == c || c in s[1..];
      assert IsPrefix([c], s) <==> s[0] == c;
    }
  }

  /** `pat` occurs in `s` starting at index `i`. */
  predicate OccursAt(s: string, pat: string, i: int) {
    0 <= i <= |s| - |pat| && s[i..i + |pat|] == pat
  }

  /** An occurrence found by `Contains` sits at some index of `s`. */
  lemma {:induction false} ContainsIndex(s: string, pat: string)
    ensures Contains(s, pat) ==> exists i :: OccursAt(s, pat, i)
    decreases |s|
  {
    if IsPrefix(pat, s) {
      assert OccursAt(s, pat, 0);
    } else if s != [] {
      ContainsIndex(s[1..], pat);
      if Contains(s[1..], pat) {
        var i :| OccursAt(s[1..], pat, i);
        assert s[i + 1..i + 1 + |pat|] == s[1..][i..i + |pat|];
        assert OccursAt(s, pat, i + 1);
      }
    }
  }

  /** A pattern holding a character that `s` lacks does not occur in `s`. */
  lemma AbsentByChar(s: string, pat: string, c: char)
    requires c in pat && c !in s
    ensures !Contains(s, pat)
  {
    ContainsIndex(s, pat);
    var k :| 0 <= k < |pat| && pat[k] == c;
    forall i | 0 <= i <= |s| - |pat|
      ensures !OccursAt(s, pat, i)
    {
      assert s[i..i + |pat|][k] != c;
    }
  }

  /**
   * When `c` occurs in `a + [c] + b` only between `a` and `b`, a pattern whose
   * `k`-th character is `c` could only start `k` characters before it; if the
   * `m`-th character found from there (still in `a`) differs from the
   * pattern's, the pattern does not occur.
   */
  lemma AbsentByAnchor(a: string, b: string, c: char, pat: string, k: nat, m: nat)
    requires k < |pat| && pat[k] == c && m < k
    requires c !in a && c !in b
    requires k > |a| || a[|a| - k + m] != pat[m]
    ensures !Contains(a + [c] + b, pat)
  {
    var s := a + [c] + b;
    ContainsIndex(s, pat);
    forall i | 0 <= i <= |s| - |pat|
      ensures !OccursAt(s, pat, i)
    {
      var w := s[i..i + |pat|];
      if i + k < |a| {
        assert w[k] == a[i + k];
      } else if i + k > |a| {
        assert w[k] == b[i + k - |a| - 1];
      } else {
        assert w[m] == a[|a| - k + m];
      }
    }
  }

  /** Replacing cannot bring in a character that neither `s` nor `rep` holds. */
  lemma {:induction false} ReplaceKeepsOut(s: string, pat: string, rep: string, c: char)
    requires pat != [] && c !in s && c !in rep
    ensures c !in Replace(s, pat, rep)
    decreases |s|
  {
    if IsPrefix(pat, s) {
      assert forall d :: d in s[|pat|..] ==> d in s;
      ReplaceKeepsOut(s[|pat|..], pat, rep, c);
    } else if s != [] {
      assert forall d :: d in s[1..] ==> d in s;
      ReplaceKeepsOut(s[1..], pat, rep, c);
    }
  }

  /** Where `x + y` occurs, so does `x`. */
  lemma {:induction false} ContainsPart(s: string, x: string, y: string)
    ensures Contains(s, x + y) ==> Contains(s, x)
    decreases |s|
  {
    if IsPrefix(x + y, s) {
      assert s[..|x|] == (x + y)[..|x|] == x;
    } else if s != [] {
      ContainsPart(s[1..], x, y);
    }
  }

  /** A leading occurrence is replaced, then the rest is scanned. */
  lemma ReplacePrefix(pat: string, p: string, rep: string)
    requires pat != []
    ensures Replace(pat + p, pat, rep) == rep + Replace(p, pat, rep)
  {
    assert (pat + p)[..|pat|] == pat;
    assert (pat + p)[|pat|..] == p;
  }

  /** A character outside the pattern after `a` does not change whether `a` starts with it. */
  lemma PrefixAround(a: string, c: char, b: string, pat: string)
    requires pat != [] && c !in pat
    ensures IsPrefix(pat, a + [c] + b) <==> IsPrefix(pat, a)
  {
    var s := a + [c] + b;
    if |pat| <= |a| {
      assert s[..|pat|] == a[..|pat|];
    } else if |pat| <= |s| {
      assert s[..|pat|][|a|] == c;
    }
  }

  /** The replacing case of `ReplaceAround`, given the claim for the rest of `a`. */
  lemma ReplaceCaseAround(a: string, c: char, b: string, pat: string, rep: string)
    requires pat != [] && c !in pat && IsPrefix(pat, a)
    requires Replace(a[|pat|..] + [c] + b, pat, rep) == Replace(a[|pat|..], pat, rep) + [c] + Replace(b, pat, rep)
    ensures Replace(a + [c] + b, pat, rep) == Replace(a, pat, rep) + [c] + Replace(b, pat, rep)
  {
    var s := a + [c] + b;
    PrefixAround(a, c, b, pat);
    assert s[|pat|..] == a[|pat|..] + [c] + b;
  }

  /** The copying case of `ReplaceAround`, given the claim for the rest of `a`. */
  lemma CopyCaseAround(a: string, c: char, b: string, pat: string, rep: string)
    requires pat != [] && c !in pat && a != [] && !IsPrefix(pat, a)
    requires Replace(a[1..] + [c] + b, pat, rep) == Replace(a[1..], pat, rep) + [c] + Replace(b, pat, rep)
    ensures Replace(a + [c] + b, pat, rep) == Replace(a, pat, rep) + [c] + Replace(b, pat, rep)
  {
    var s := a + [c] + b;
    PrefixAround(a, c, b, pat);
    assert s[0] == a[0];
    assert s[1..] == a[1..] + [c] + b;
  }

  /** The base case of `ReplaceAround`: `c` itself is copied. */
  lemma CharCaseAround(c: char, b: string, pat: string, rep: string)
    requires pat != [] && c !in pat
    ensures Replace([c] + b, pat, rep) == [c] + Replace(b, pat, rep)
  {
    PrefixAround([], c, b, pat);
    assert [] + [c] + b == [c] + b;
    assert ([c] + b)[1..] == b;
  }

  /** No occurrence spans a character the pattern lacks, so replacement works on each side. */
  lemma {:induction false} ReplaceAround(a: string, c: char, b: string, pat: string, rep: string)
    requires pat != [] && c !in pat
    ensures Replace(a + [c] + b, pat, rep) == Replace(a, pat, rep) + [c] + Replace(b, pat, rep)
    decreases |a|
  {
    if IsPrefix(pat, a) {
      ReplaceAround(a[|pat|..], c, b, pat, rep);
      ReplaceCaseAround(a, c, b, pat, rep);
    } else if a == [] {
      CharCaseAround(c, b, pat, rep);
      assert a + [c] + b == [c] + b;
    } else {
      ReplaceAround(a[1..], c, b, pat, rep);
      CopyCaseAround(a, c, b, pat, rep);
    }
  }

  /** Concatenation regrouped (a named step keeps literals out of the solver's way). */
  lemma Reassociate(a: string, b: string, c: string)
    ensures a + b + c == a + (b + c)
  {
  }

  /** Python's `s.split(sep)` for a one-character separator. */
  function Split(s: string, sep: char): (parts: seq<string>)
    ensures |parts| >= 1
    ensures forall i :: 0 <= i < |parts| ==> sep !in parts[i]
    decreases |s|
  {
    if s == [] then [""]
    else
      var rest := Split(s[1..], sep);
      if s[0] == sep then [""] + rest
      else [[s[0]] + rest[0]] + rest[1..]
  }

  /** Python's `sep.join(parts)`. */
  function Join(parts: seq<string>, sep: char): string
    decreases |parts|
  {
    if parts == [] then ""
    else if |parts| == 1 then parts[0]
    else parts[0] + [sep] + Join(parts[1..], sep)
  }

  /** Joining the pieces of a split gives back the string. */
  lemma {:induction false} JoinSplit(s: string, sep: char)
    ensures Join(Split(s, sep), sep) == s
    decreases |s|
  {
    if s != [] {
      var rest := Split(s[1..], sep);
      JoinSplit(s[1..], sep);
      if s[0] == sep {
        assert ([""] + rest)[1..] == rest;
      } else if |rest| > 1 {
        var parts := [[s[0]] + rest[0]] + rest[1..];
        assert parts[1..] == rest[1..];
        assert Join(rest, sep) == rest[0] + [sep] + Join(rest[1..], sep);
      }
      assert s == [s[0]] + s[1..];
    }
  }

  lemma {:induction false} SplitFree(s: string, sep: char)
    requires sep !in s
    ensures Split(s, sep) == [s]
    decreases |s|
  {
    if s != [] {
      SplitFree(s[1..], sep);
      assert s == [s[0]] + s[1..];
    }
  }

  lemma {:induction false} SplitAfter(p: string, t: string, sep: char)
    requires sep !in p
    ensures Split(p + [sep] + t, sep) == [p] + Split(t, sep)
    decreases |p|
  {
    if p == [] {
      assert [sep] + t == p + [sep] + t;
      assert ([sep] + t)[1..] == t;
    } else {
      assert (p + [sep] + t)[1..] == p[1..] + [sep] + t;
      SplitAfter(p[1..], t, sep);
      assert [p[0]] + p[1..] == p;
    }
  }

  /** Splitting a join of separator-free pieces gives back the pieces. */
  lemma {:induction false} SplitJoin(parts: seq<string>, sep: char)
    requires parts != []
    requires forall i :: 0 <= i < |parts| ==> sep !in parts[i]
    ensures Split(Join(parts, sep), sep) == parts
    decreases |parts|
  {
    if |parts| == 1 {
      SplitFree(parts[0], sep);
    } else {
      SplitJoin(parts[1..], sep);
      SplitAfter(parts[0], Join(parts[1..], sep), sep);
      assert [parts[0]] + parts[1..] == parts;
    }
  }

  /** Python's `s.split(sep)[-1]`: what follows the last separator. */
  function LastSegment(s: string, sep: char): string {
    var parts := Split(s, sep);
    parts[|parts| - 1]
  }

  /**
   * `last` is a separator-free suffix of `s`; it is `s` itself exactly when
   * `s` holds no separator, and otherwise a separator stands right before it.
   */
  predicate LastShaped(s: string, sep: char, last: string) {
    sep !in last && IsSuffix(last, s) && (sep !in s <==> last == s) &&
    (sep in s ==> |last| < |s| && s[|s| - |last| - 1] == sep)
  }

  /** The last segment is what follows the last separator. */
  lemma {:induction false} LastSegmentShape(s: string, sep: char)
    ensures sep !in LastSegment(s, sep)
    ensures IsSuffix(LastSegment(s, sep), s)
    ensures sep !in s <==> LastSegment(s, sep) == s
    ensures sep in s ==> |LastSegment(s, sep)| < |s| && s[|s| - |LastSegment(s, sep)| - 1] == sep
    decreases |s|
  {
    if s != [] {
      LastSegmentShape(s[1..], sep);
      if s[0] == sep {
        LastAfterSeparator(s, sep);
      } else if |Split(s[1..], sep)| == 1 {
        LastJoined(s, sep);
      } else {
        LastLater(s, sep);
      }
    }
  }

  /** A leading separator: the last segment is the tail's. */
  lemma LastAfterSeparator(s: string, sep: char)
    requires s != [] && s[0] == sep
    requires LastShaped(s[1..], sep, LastSegment(s[1..], sep))
    ensures LastShaped(s, sep, LastSegment(s, sep))
  {
    assert s == [s[0]] + s[1..];
    assert LastSegment(s, sep) == LastSegment(s[1..], sep);
  }

  /** A tail without separator: the last segment is all of `s`. */
  lemma LastJoined(s: string, sep: char)
    requires s != [] && s[0] != sep && |Split(s[1..], sep)| == 1
    ensures LastShaped(s, sep, LastSegment(s, sep))
  {
    assert s == [s[0]] + s[1..];
    if sep in s[1..] {
      SplitOfSeparated(s[1..], sep);
    }
    SplitFree(s[1..], sep);
    assert LastSegment(s, sep) == [s[0]] + s[1..];
  }

  /** A tail with a separator: the last segment is the tail's. */
  lemma LastLater(s: string, sep: char)
    requires s != [] && s[0] != sep && |Split(s[1..], sep)| > 1
    requires LastShaped(s[1..], sep, LastSegment(s[1..], sep))
    ensures LastShaped(s, sep, LastSegment(s, sep))
  {
    assert s == [s[0]] + s[1..];
    assert LastSegment(s, sep) == LastSegment(s[1..], sep);
    if sep !in s[1..] {
      SplitFree(s[1..], sep);
    }
  }

  lemma {:induction false} SplitOfSeparated(s: string, sep: char)
    requires sep in s
    ensures |Split(s, sep)| > 1
    decreases |s|
  {
    assert s == [s[0]] + s[1..];
    if s[0] != sep {
      SplitOfSeparated(s[1..], sep);
    }
  }

  /** What follows the last separator is what follows a separator, when no separator follows it. */
  lemma {:induction false} LastSegmentAfter(a: string, b: string, sep: char)
    requires sep !in b
    ensures LastSegment(a + [sep] + b, sep) == b
    decreases |a|
  {
    var s := a + [sep] + b;
    if a == [] {
      assert s == [sep] + b;
      assert s[1..] == b;
      SplitFree(b, sep);
    } else {
      assert s[0] == a[0];
      assert s[1..] == a[1..] + [sep] + b;
      LastSegmentAfter(a[1..], b, sep);
      SplitOfSeparated(s[1..], sep);
    }
  }

  /** Drops the leading characters that satisfy `drop`. */
  function TrimLeft(s: string, drop: char -> bool): (r: string)
    ensures IsSuffix(r, s)
    ensures r == [] || !drop(r[0])
    ensures forall i :: 0 <= i < |s| - |r| ==> drop(s[i])
    decreases |s|
  {
    if s != [] && drop(s[0]) then TrimLeft(s[1..], drop) else s
  }

  /** Drops the trailing characters that satisfy `drop`. */
  function TrimRight(s: string, drop: char -> bool): (r: string)
    ensures IsPrefix(r, s)
    ensures r == [] || !drop(r[|r| - 1])
    ensures forall i :: |r| <= i < |s| ==> drop(s[i])
    decreases |s|
  {
    if s != [] && drop(s[|s| - 1]) then TrimRight(s[..|s| - 1], drop) else s
  }

  /** Python's `s.strip(chars)`: trims both ends. */
  function Trim(s: string, drop: char -> bool): string {
    TrimRight(TrimLeft(s, drop), drop)
  }

  /** Trimming a string whose two ends are kept changes nothing. */
  lemma TrimKept(s: string, drop: char -> bool)
    requires s == [] || (!drop(s[0]) && !drop(s[|s| - 1]))
    ensures Trim(s, drop) == s
  {
  }

  /** White space as Python's `str.strip()` sees it, limited to ASCII. */
  predicate IsSpace(c: char) {
    c == ' ' || '\t' <= c <= '\r' || '\U{1c}' <= c <= '\U{1f}'
  }

  /** Neither end of `s` is white space. */
  predicate Stripped(s: string) {
    s == [] || (!IsSpace(s[0]) && !IsSpace(s[|s| - 1]))
  }

  /** Python's `s.strip()`. */
  function Strip(s: string): (r: string)
    ensures Stripped(r)
  {
    Trim(s, IsSpace)
  }

  /** A string strips to nothing exactly when it is all white space. */
  lemma StripBlank(s: string)
    ensures Strip(s) == [] <==> forall i :: 0 <= i < |s| ==> IsSpace(s[i])
  {
    var l := TrimLeft(s, IsSpace);
    assert l != [] ==> l[0] == s[|s| - |l|];
    assert Strip(s) == [] ==> l == [];
  }

  function LowerChar(c: char): char {
    if 'A' <= c <= 'Z' then (c as int + 32) as char else c
  }

  function UpperChar(c: char): char {
    if 'a' <= c <= 'z' then (c as int - 32) as char else c
  }

  /** Python's `s.lower()` and Go's `strings.ToLower`. */
  function Lower(s: string): string {
    seq(|s|, i requires 0 <= i < |s| => LowerChar(s[i]))
  }

  /** Python's `s.capitalize()`: first character upper case, the rest lower case. */
  function Capitalize(s: string): (r: string)
    ensures |r| == |s|
    ensures s != [] ==> r[0] == UpperChar(s[0]) && r[1..] == Lower(s[1..])
    ensures forall i :: 1 <= i < |s| ==> r[i] == LowerChar(s[i])
  {
    if s == [] then [] else [UpperChar(s[0])] + Lower(s[1..])
  }
}
