/**
 * The JavaScript string built-ins the core relies on (`trim`, `split`, `startsWith`,
 * `indexOf`/`replace` with a string pattern, `replace` with a global one-character
 * pattern, `charAt`, `toUpperCase`), as functions on `seq<char>`; `substring` is a slice.
 */
module JsStrings {
  import opened Optional

  /** The characters `String.prototype.trim` removes: ECMAScript WhiteSpace and LineTerminator. */
  predicate IsWhitespace(c: char) {
    c == '\t' || c == '\n' || c == '\U{000B}' || c == '\U{000C}' || c == '\r' || c == ' '
    || c == '\U{00A0}' || c == '\U{1680}' || ('\U{2000}' <= c <= '\U{200A}')
    || c == '\U{2028}' || c == '\U{2029}' || c == '\U{202F}' || c == '\U{205F}'
    || c == '\U{3000}' || c == '\U{FEFF}'
  }

  function Min(a: int, b: int): int { if a < b then a else b }

  /** `s.startsWith(p)` */
  predicate StartsWith(s: string, p: string) {
    |p| <= |s| && s[..|p|] == p
  }

  /** `pat` occurs in `s` at index `j`. */
  predicate OccursAt(s: string, pat: string, j: nat) {
    j + |pat| <= |s| && s[j..j + |pat|] == pat
  }

  /** Leading whitespace removed: a string no longer than `s` that does not start with whitespace. */
  function TrimStart(s: string): (r: string)
    ensures |r| <= |s|
    ensures r != [] ==> !IsWhitespace(r[0])
  {
    if s != [] && IsWhitespace(s[0]) then TrimStart(s[1..]) else s
  }

  /** TrimStart keeps a suffix of `s` and drops only whitespace before it. */
  lemma {:induction false} TrimStartDrops(s: string)
    ensures var r := TrimStart(s);
            r == s[|s| - |r|..] && forall i :: 0 <= i < |s| - |r| ==> IsWhitespace(s[i])
  {
    if s != [] && IsWhitespace(s[0]) {
      TrimStartDrops(s[1..]);
      var r := TrimStart(s);
      assert s[1..][|s| - 1 - |r|..] == s[|s| - |r|..];
      assert forall i :: 1 <= i < |s| - |r| ==> s[i] == s[1..][i - 1];
    }
  }

  /** Whitespace in front of `s` is all removed, and nothing of `s` is. */
  lemma {:induction false} TrimStartWhitespacePrefix(w: string, s: string)
    requires forall i :: 0 <= i < |w| ==> IsWhitespace(w[i])
    ensures TrimStart(w + s) == TrimStart(s)
  {
    if w != [] {
      TrimStartWhitespacePrefix(w[1..], s);
      assert (w + s)[0] == w[0] && IsWhitespace(w[0]);
      assert (w + s)[1..] == w[1..] + s;
    } else {
      assert w + s == s;
    }
  }

  /** Trailing whitespace removed: a string no longer than `s` that does not end with whitespace. */
  function TrimEnd(s: string): (r: string)
    ensures |r| <= |s|
    ensures r != [] ==> !IsWhitespace(r[|r| - 1])
  {
    if s != [] && IsWhitespace(s[|s| - 1]) then TrimEnd(s[..|s| - 1]) else s
  }

  /** TrimEnd keeps a prefix of `s` and drops only whitespace after it. */
  lemma {:induction false} TrimEndDrops(s: string)
    ensures var r := TrimEnd(s);
            r == s[..|r|] && forall i :: |r| <= i < |s| ==> IsWhitespace(s[i])
  {
    if s != [] && IsWhitespace(s[|s| - 1]) {
      TrimEndDrops(s[..|s| - 1]);
      var r := TrimEnd(s);
      assert s[..|s| - 1][..|r|] == s[..|r|];
      assert forall i :: |r| <= i < |s| - 1 ==> s[i] == s[..|s| - 1][i];
    }
  }

  /** `s.trim()` */
  function Trim(s: string): (r: string)
    ensures |r| <= |s|
    ensures r != [] ==> !IsWhitespace(r[0]) && !IsWhitespace(r[|r| - 1])
  {
    var t := TrimStart(s);
    var r := TrimEnd(t);
    TrimEndDrops(t);
    assert r != [] ==> r[0] == t[..|r|][0];
    r
  }

  /** Trimming twice is trimming once. */
  lemma TrimIdempotent(s: string)
    ensures Trim(Trim(s)) == Trim(s)
  {
    var r := Trim(s);
    if r != [] {
      assert TrimStart(r) == r;
      assert TrimEnd(r) == r;
    }
  }

  /** `s.split(sep)` with a one-character separator: the pieces between the separators. */
  function Split(s: string, sep: char): (parts: seq<string>)
    ensures |parts| >= 1
    ensures |parts| == 1 <==> sep !in s
    ensures forall p :: p in parts ==> sep !in p
  {
    if s == [] then [[]]
    else
      var rest := Split(s[1..], sep);
      assert s == [s[0]] + s[1..];
      if s[0] == sep then [[]] + rest
      else [[s[0]] + rest[0]] + rest[1..]
  }

  /** `parts.join(sep)` */
  function Join(parts: seq<string>, sep: char): string {
    if |parts| == 0 then []
    else if |parts| == 1 then parts[0]
    else parts[0] + [sep] + Join(parts[1..], sep)
  }

  /** Splitting and joining with the same separator gives the string back. */
  lemma {:induction false} JoinSplit(s: string, sep: char)
    ensures Join(Split(s, sep), sep) == s
  {
    if s != [] {
      var rest := Split(s[1..], sep);
      JoinSplit(s[1..], sep);
      if s[0] == sep {
        JoinEmptyFirst(rest, sep);
      } else {
        JoinExtendedFirst(s[0], rest, sep);
      }
      assert [s[0]] + s[1..] == s;
    }
  }

  /** An empty first piece contributes only its separator. */
  lemma JoinEmptyFirst(rest: seq<string>, sep: char)
    requires |rest| >= 1
    ensures Join([[]] + rest, sep) == [sep] + Join(rest, sep)
  {
    var parts := [[]] + rest;
    assert parts[1..] == rest;
  }

  /** A character put in front of the first piece ends up in front of the joined string. */
  lemma JoinExtendedFirst(c: char, rest: seq<string>, sep: char)
    requires |rest| >= 1
    ensures Join([[c] + rest[0]] + rest[1..], sep) == [c] + Join(rest, sep)
  {
    var parts := [[c] + rest[0]] + rest[1..];
    if |rest| > 1 {
      assert parts[1..] == rest[1..];
      assert Join(rest, sep) == rest[0] + [sep] + Join(rest[1..], sep);
    }
  }

  /** Joining pieces free of the separator and splitting again gives the pieces back. */
  lemma {:induction false} SplitJoin(parts: seq<string>, sep: char)
    requires |parts| >= 1
    requires forall p :: p in parts ==> sep !in p
    ensures Split(Join(parts, sep), sep) == parts
  {
    if |parts| == 1 {
      SplitWhole(parts[0], sep);
    } else {
      SplitJoin(parts[1..], sep);
      SplitPiece(parts[0], sep, Join(parts[1..], sep));
      assert [parts[0]] + parts[1..] == parts;
    }
  }

  /** A string free of the separator is its only part. */
  lemma {:induction false} SplitWhole(p: string, sep: char)
    requires sep !in p
    ensures Split(p, sep) == [p]
  {
    if p != [] {
      SplitWhole(p[1..], sep);
      assert p == [p[0]] + p[1..];
    }
  }

  /** A separator-free piece in front of a separator becomes the first part. */
  lemma {:induction false} SplitPiece(p: string, sep: char, tail: string)
    requires sep !in p
    ensures Split(p + [sep] + tail, sep) == [p] + Split(tail, sep)
  {
    var s := p + [sep] + tail;
    if p == [] {
      assert s[1..] == tail;
    } else {
      var rest := Split(s[1..], sep);
      assert s[0] == p[0] && s[1..] == p[1..] + [sep] + tail;
      SplitPiece(p[1..], sep, tail);
      assert rest[0] == p[1..] && rest[1..] == Split(tail, sep);
      assert [p[0]] + p[1..] == p;
    }
  }

  /** One past the index of the last `sep` in `s`, or 0 when `s` has none. */
  function AfterLast(s: string, sep: char): (k: nat)
    ensures k <= |s|
    ensures sep !in s[k..]
    ensures k > 0 ==> s[k - 1] == sep
  {
    if s == [] then 0
    else if s[|s| - 1] == sep then |s|
    else
      var k := AfterLast(s[..|s| - 1], sep);
      assert s[k..] == s[..|s| - 1][k..] + [s[|s| - 1]];
      k
  }

  /** The last part of `s.split(sep)` is what follows the last separator. */
  lemma {:induction false} SplitLast(s: string, sep: char, k: nat)
    requires k <= |s| && sep !in s[k..]
    requires k == 0 || s[k - 1] == sep
    ensures Split(s, sep)[|Split(s, sep)| - 1] == s[k..]
  {
    if s == [] {
      assert Split(s, sep) == [[]];
    } else {
      var rest := Split(s[1..], sep);
      var parts := Split(s, sep);
      if s[0] == sep {
        SplitLast(s[1..], sep, k - 1);
        assert s[1..][k - 1..] == s[k..];
        assert parts == [[]] + rest;
        assert parts[|parts| - 1] == rest[|rest| - 1];
      } else if k == 0 {
        SplitLast(s[1..], sep, 0);
        assert sep !in s[1..];
        assert parts == [[s[0]] + rest[0]] && rest[0] == s[1..];
        assert parts[|parts| - 1] == [s[0]] + s[1..] == s[0..];
      } else {
        assert k >= 2;
        assert s[1..][k - 2] == sep;
        SplitLast(s[1..], sep, k - 1);
        assert s[1..][k - 1..] == s[k..];
        assert parts == [[s[0]] + rest[0]] + rest[1..];
        assert parts[|parts| - 1] == rest[|rest| - 1];
      }
    }
  }

  /** A string that does not start with the separator splits into a first part that starts like it. */
  lemma SplitFirstChar(s: string, sep: char)
    requires s != [] && s[0] != sep
    ensures Split(s, sep)[0] != [] && Split(s, sep)[0][0] == s[0]
  {
  }

  /**
   * A string that contains the separator but neither starts nor ends with it splits into at least
   * two parts; the first starts with its first character, the last with the character after its last separator.
   */
  lemma SplitEnds(s: string, sep: char)
    requires sep in s && s[0] != sep && s[|s| - 1] != sep
    ensures var parts := Split(s, sep);
      var k := AfterLast(s, sep);
      |parts| >= 2 && 0 < k < |s| &&
      FirstChar(parts[0]) == [s[0]] && FirstChar(parts[|parts| - 1]) == [s[k]]
  {
    var k := AfterLast(s, sep);
    assert s[0..] == s;
    SplitLast(s, sep, k);
    SplitFirstChar(s, sep);
  }

  /** `s.charAt(0)` as a string: the first character, or "" for an empty string. */
  function FirstChar(s: string): (r: string)
    ensures |r| == Min(1, |s|) && r == s[..|r|]
  {
    if s == [] then [] else [s[0]]
  }

  /** `toUpperCase` of one character, for ASCII letters. */
  function UpperChar(c: char): (u: char)
    ensures 'a' <= c <= 'z' ==> 'A' <= u <= 'Z' && u as int - c as int == 'A' as int - 'a' as int
    ensures !('a' <= c <= 'z') ==> u == c
  {
    if 'a' <= c <= 'z' then (c as int - 'a' as int + 'A' as int) as char else c
  }

  /** `s.toUpperCase()`, for ASCII letters. */
  function ToUpper(s: string): (r: string)
    ensures |r| == |s|
    ensures forall i :: 0 <= i < |s| ==> r[i] == UpperChar(s[i])
  {
    if s == [] then [] else [UpperChar(s[0])] + ToUpper(s[1..])
  }

  /** Upper-casing twice is upper-casing once. */
  lemma ToUpperIdempotent(s: string)
    ensures ToUpper(ToUpper(s)) == ToUpper(s)
  {
    assert forall i :: 0 <= i < |s| ==> ToUpper(ToUpper(s))[i] == ToUpper(s)[i];
  }

  /** `s.replace(/<from>/g, to)` for a one-character pattern. */
  function ReplaceAllChar(s: string, from: char, to: char): (r: string)
    ensures |r| == |s|
    ensures forall i :: 0 <= i < |s| ==> r[i] == (if s[i] == from then to else s[i])
  {
    if s == [] then [] else [if s[0] == from then to else s[0]] + ReplaceAllChar(s[1..], from, to)
  }

  /** Replacing characters distributes over concatenation. */
  lemma ReplaceAllCharAppend(a: string, b: string, from: char, to: char)
    ensures ReplaceAllChar(a + b, from, to) == ReplaceAllChar(a, from, to) + ReplaceAllChar(b, from, to)
  {
    var l, r := ReplaceAllChar(a + b, from, to), ReplaceAllChar(a, from, to) + ReplaceAllChar(b, from, to);
    assert forall i :: 0 <= i < |a| ==> l[i] == r[i];
    assert forall i :: |a| <= i < |a| + |b| ==> (a + b)[i] == b[i - |a|] && l[i] == r[i];
  }

  /** `s.indexOf(pat)`: the first index at which `pat` occurs, or None for -1. */
  function IndexOf(s: string, pat: string): (r: Option<nat>)
    ensures r.Some? ==> OccursAt(s, pat, r.value)
    ensures r.Some? ==> forall j :: 0 <= j < r.value ==> !OccursAt(s, pat, j)
    ensures r.None? ==> forall j :: 0 <= j <= |s| ==> !OccursAt(s, pat, j)
    decreases |s|
  {
    if |s| < |pat| then None
    else if s[..|pat|] == pat then Some(0)
    else
      var r := IndexOf(s[1..], pat);
      assert forall j :: 0 < j <= |s| ==> (OccursAt(s, pat, j) <==> OccursAt(s[1..], pat, j - 1)) by {
        forall j | 0 < j <= |s| ensures OccursAt(s, pat, j) <==> OccursAt(s[1..], pat, j - 1) {
          if j + |pat| <= |s| {
            assert forall k {:trigger s[j..j + |pat|][k]} :: 0 <= k < |pat| ==>
              s[j..j + |pat|][k] == s[1..][j - 1..j - 1 + |pat|][k];
          }
        }
      }
      if r.None? then None else Some(r.value + 1)
  }

  /**
   * `s.replace(pat, rep)` with a string pattern: `s` itself when `pat` does not occur,
   * otherwise only the first occurrence is replaced.
   */
  function ReplaceFirst(s: string, pat: string, rep: string): (r: string)
    ensures (forall j :: 0 <= j <= |s| ==> !OccursAt(s, pat, j)) ==> r == s
    ensures (exists j :: 0 <= j <= |s| && OccursAt(s, pat, j)) ==> |r| + |pat| == |s| + |rep|
  {
    match IndexOf(s, pat)
    case None => s
    case Some(i) => s[..i] + rep + s[i + |pat|..]
  }

  /** When `pat` first occurs at `i`, the replacement splices `rep` in there and keeps the rest. */
  lemma ReplaceFirstAt(s: string, pat: string, rep: string, i: nat)
    requires OccursAt(s, pat, i)
    requires forall j :: 0 <= j < i ==> !OccursAt(s, pat, j)
    ensures ReplaceFirst(s, pat, rep) == s[..i] + rep + s[i + |pat|..]
  {
  }
}
