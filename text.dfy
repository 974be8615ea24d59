/** String operations of the JavaScript runtime that the modelled code relies on:
    white space as `\s` and `String.prototype.trim` see it, lower-casing, substring
    search, first-occurrence and global replacement, `split` on one character and
    `Array.prototype.join`. */
module Text {

  datatype Option<+T> = None | Some(value: T)
  {
    function GetOr(default: T): T {
      match this
      case Some(v) => v
      case None => default
    }
  }

  datatype Result<+R, +E> = Success(value: R) | Failure(error: E)

  // ---------------------------------------------------------------------------
  // White space

  /** JavaScript's WhiteSpace and LineTerminator characters: the set that both the
      regular-expression class `\s` and `trim()` use. */
  predicate IsSpace(c: char) {
    || c == ' ' || c == '\t' || c == '\n' || c == '\r'
    || c == '\U{000B}' || c == '\U{000C}' || c == '\U{00A0}' || c == '\U{1680}'
    || ('\U{2000}' <= c <= '\U{200A}')
    || c == '\U{2028}' || c == '\U{2029}' || c == '\U{202F}' || c == '\U{205F}'
    || c == '\U{3000}' || c == '\U{FEFF}'
  }

  /** The characters a regular-expression `.` does not match. */
  predicate IsLineTerminator(c: char) {
    c == '\n' || c == '\r' || c == '\U{2028}' || c == '\U{2029}'
  }

  /** Length of the white-space run at the front of `s` (what a greedy `\s*` consumes). */
  function SpaceRun(s: string): (n: nat)
    ensures n <= |s|
    ensures forall k | 0 <= k < n :: IsSpace(s[k])
    ensures n == |s| || !IsSpace(s[n])
  {
    if s == [] || !IsSpace(s[0]) then 0 else 1 + SpaceRun(s[1..])
  }

  /** A string with no white space at either end. */
  predicate IsTrimmed(s: string) {
    s == [] || (!IsSpace(s[0]) && !IsSpace(s[|s| - 1]))
  }

  /** Removes trailing white space. */
  function TrimEnd(s: string): (r: string)
    ensures |r| <= |s| && r == s[..|r|]
    ensures forall k | |r| <= k < |s| :: IsSpace(s[k])
    ensures r == [] || !IsSpace(r[|r| - 1])
  {
    if s != [] && IsSpace(s[|s| - 1]) then TrimEnd(s[..|s| - 1]) else s
  }

  /** `String.prototype.trim`: the slice of `s` left after removing white space at both ends. */
  function Trim(s: string): (r: string)
    ensures IsTrimmed(r)
    ensures SpaceRun(s) + |r| <= |s| && r == s[SpaceRun(s)..SpaceRun(s) + |r|]
    ensures forall k | 0 <= k < SpaceRun(s) :: IsSpace(s[k])
    ensures forall k | SpaceRun(s) + |r| <= k < |s| :: IsSpace(s[k])
  {
    var a := SpaceRun(s);
    var r := TrimEnd(s[a..]);
    assert r != [] ==> r[0] == s[a];
    r
  }

  /** Trimming a string that is already trimmed changes nothing. */
  lemma TrimOfTrimmed(s: string)
    requires IsTrimmed(s)
    ensures Trim(s) == s
  {
    assert SpaceRun(s) == 0;
    assert s[0..] == s;
  }

  /** A trimmed slice keeps every property that holds of all characters of the original. */
  lemma TrimKeeps(s: string, P: char -> bool)
    requires forall k | 0 <= k < |s| :: P(s[k])
    ensures forall k | 0 <= k < |Trim(s)| :: P(Trim(s)[k])
  {
    var a := SpaceRun(s);
    forall k | 0 <= k < |Trim(s)| ensures P(Trim(s)[k]) {
      assert Trim(s)[k] == s[a + k];
    }
  }

  // ---------------------------------------------------------------------------
  // Lower case

  /** `toLowerCase` on one character, for Latin A-Z and the Cyrillic capitals
      U+0400-U+042F; every other character is its own lower case here. */
  function LowerChar(c: char): char {
    if 'A' <= c <= 'Z' then (c as int + 32) as char
    else if '\U{0410}' <= c <= '\U{042F}' then (c as int + 32) as char
    else if '\U{0400}' <= c <= '\U{040F}' then (c as int + 80) as char
    else c
  }

  /** Every character of `s` is its own lower case. */
  predicate IsLower(s: string) {
    forall k | 0 <= k < |s| :: LowerChar(s[k]) == s[k]
  }

  /** `String.prototype.toLowerCase`. */
  function Lower(s: string): (r: string)
    ensures |r| == |s|
    ensures IsLower(r)
  {
    seq(|s|, k requires 0 <= k < |s| => LowerChar(s[k]))
  }

  /** Lower-casing leaves a lower-case text as it is. */
  lemma LowerOfLower(s: string)
    requires IsLower(s)
    ensures Lower(s) == s
  {
  }

  // ---------------------------------------------------------------------------
  // Search and replacement

  /** `p` occurs in `s` starting at index `i`. */
  predicate OccursAt(s: string, p: string, i: nat) {
    i + |p| <= |s| && s[i..i + |p|] == p
  }

  predicate Contains(s: string, p: string) {
    exists i: nat | i <= |s| :: OccursAt(s, p, i)
  }

  /** `s.startsWith(p)`. */
  predicate StartsWith(s: string, p: string) {
    |p| <= |s| && s[..|p|] == p
  }

  /** `s.endsWith(p)`. */
  predicate EndsWith(s: string, p: string) {
    |p| <= |s| && s[|s| - |p|..] == p
  }

  /** An occurrence of `p` in a slice of `s` is an occurrence in `s`. */
  lemma OccursInSlice(s: string, a: nat, b: nat, p: string, i: nat)
    requires a <= b <= |s| && OccursAt(s[a..b], p, i)
    ensures OccursAt(s, p, a + i)
  {
    var x := s[a..b];
    forall k | 0 <= k < |p| ensures s[a + i + k] == p[k] {
      assert x[i..i + |p|][k] == x[i + k] == p[k];
    }
    assert s[a + i..a + i + |p|] == p;
  }

  /** Trimming cannot create an occurrence. */
  lemma TrimAvoids(s: string, p: string)
    requires !Contains(s, p)
    ensures !Contains(Trim(s), p)
  {
    var r := Trim(s);
    var a := SpaceRun(s);
    forall j: nat | j <= |r| && OccursAt(r, p, j) ensures false {
      OccursInSlice(s, a, a + |r|, p, j);
    }
  }

  /** A character of a suffix is a character of the whole. */
  lemma InSuffix(s: string, a: nat, c: char)
    requires a <= |s| && c in s[a..]
    ensures c in s
  {
    var k :| 0 <= k < |s[a..]| && s[a..][k] == c;
    assert s[a + k] == c;
  }

  /** The three parts of a concatenation are its slices. */
  lemma SliceParts(a: string, b: string, c: string)
    ensures (a + b + c)[..|a|] == a
    ensures (a + b + c)[|a|..|a| + |b|] == b
    ensures (a + b + c)[|a| + |b|..] == c
  {
  }

  /** `s.indexOf(p)`: the least index at which `p` occurs, if any. */
  function IndexOf(s: string, p: string): (r: Option<nat>)
    ensures r.Some? ==> OccursAt(s, p, r.value)
    ensures r.Some? ==> forall j: nat | j < r.value :: !OccursAt(s, p, j)
    ensures r.None? ==> forall j: nat :: !OccursAt(s, p, j)
    decreases |s|
  {
    if |s| < |p| then None
    else if s[..|p|] == p then Some(0)
    else
      assert !OccursAt(s, p, 0) by { assert s[..|p|] == s[0..|p|]; }
      match IndexOf(s[1..], p)
      case None =>
        NoneShifted(s, p);
        None
      case Some(j) =>
        SomeShifted(s, p, j);
        Some(j + 1)
  }

  /** An occurrence one position further in `s` is an occurrence in `s[1..]`. */
  lemma OccursShifted(s: string, p: string, j: nat)
    requires s != []
    ensures OccursAt(s, p, j + 1) == OccursAt(s[1..], p, j)
  {
    if j + 1 + |p| <= |s| {
      assert s[1..][j..j + |p|] == s[j + 1..j + 1 + |p|];
    }
  }

  lemma NoneShifted(s: string, p: string)
    requires s != [] && !OccursAt(s, p, 0)
    requires forall j: nat :: !OccursAt(s[1..], p, j)
    ensures forall j: nat :: !OccursAt(s, p, j)
  {
    forall j: nat ensures !OccursAt(s, p, j) {
      if j > 0 { OccursShifted(s, p, j - 1); }
    }
  }

  lemma SomeShifted(s: string, p: string, j: nat)
    requires s != [] && !OccursAt(s, p, 0)
    requires OccursAt(s[1..], p, j)
    requires forall i: nat | i < j :: !OccursAt(s[1..], p, i)
    ensures OccursAt(s, p, j + 1)
    ensures forall i: nat | i < j + 1 :: !OccursAt(s, p, i)
  {
    OccursShifted(s, p, j);
    forall i: nat | i < j + 1 ensures !OccursAt(s, p, i) {
      if i > 0 { OccursShifted(s, p, i - 1); }
    }
  }

  /** `s.replace(p, rep)` with a string pattern: only the first occurrence is replaced. */
  function ReplaceFirst(s: string, p: string, rep: string): string {
    match IndexOf(s, p)
    case None => s
    case Some(i) => s[..i] + rep + s[i + |p|..]
  }

  /** `replace` with a literal pattern acts on the first occurrence it has. */
  lemma ReplaceFirstAt(s: string, p: string, rep: string, i: nat)
    requires OccursAt(s, p, i) && forall j: nat | j < i :: !OccursAt(s, p, j)
    ensures ReplaceFirst(s, p, rep) == s[..i] + rep + s[i + |p|..]
  {
    assert IndexOf(s, p) == Some(i);
  }

  /** `s.replace(/p/g, "")` for a literal, non-empty `p`: deletes the non-overlapping
      occurrences found scanning left to right. */
  function RemoveAll(s: string, p: string): (r: string)
    requires p != []
    ensures |r| <= |s|
    decreases |s|
  {
    if s == [] then []
    else if StartsWith(s, p) then RemoveAll(s[|p|..], p)
    else [s[0]] + RemoveAll(s[1..], p)
  }

  // ---------------------------------------------------------------------------
  // Split and join

  /** `s.split(c)` for a single-character separator. */
  function Split(s: string, c: char): (r: seq<string>)
    ensures |r| >= 1
    ensures forall i | 0 <= i < |r| :: c !in r[i]
  {
    if s == [] then [""]
    else
      var rest := Split(s[1..], c);
      if s[0] == c then [""] + rest
      else [[s[0]] + rest[0]] + rest[1..]
  }

  /** `xs.join(sep)`. */
  function Join(sep: string, xs: seq<string>): string {
    if |xs| == 0 then ""
    else if |xs| == 1 then xs[0]
    else xs[0] + sep + Join(sep, xs[1..])
  }

  /** Splitting on a character and joining with it gives back the original string. */
  lemma {:induction false} JoinSplit(s: string, c: char)
    ensures Join([c], Split(s, c)) == s
  {
    if s != [] {
      var rest := Split(s[1..], c);
      JoinSplit(s[1..], c);
      if s[0] == c {
        assert Split(s, c) == [""] + rest;
        assert ([""] + rest)[1..] == rest;
      } else {
        if |rest| == 1 {
          assert Join([c], Split(s, c)) == [s[0]] + rest[0];
        } else {
          var r := [[s[0]] + rest[0]] + rest[1..];
          assert r[1..] == rest[1..];
          assert Join([c], r) == [s[0]] + rest[0] + [c] + Join([c], rest[1..]);
        }
      }
    }
  }

  /** Joining one more element onto a non-empty list appends the separator and the element. */
  lemma {:induction false} JoinSnoc(sep: string, xs: seq<string>, x: string)
    requires xs != []
    ensures Join(sep, xs + [x]) == Join(sep, xs) + sep + x
  {
    if |xs| > 1 {
      assert (xs + [x])[1..] == xs[1..] + [x];
      JoinSnoc(sep, xs[1..], x);
    }
  }

  lemma JoinCons(sep: string, x: string, xs: seq<string>)
    requires xs != []
    ensures Join(sep, [x] + xs) == x + sep + Join(sep, xs)
  {
    assert ([x] + xs)[1..] == xs;
  }

  /** `xs.flat()` for a list of strings: concatenation of all elements. */
  function Concat(xs: seq<string>): string {
    if xs == [] then "" else xs[0] + Concat(xs[1..])
  }

  lemma {:induction false} ConcatAppend(xs: seq<string>, ys: seq<string>)
    ensures Concat(xs + ys) == Concat(xs) + Concat(ys)
  {
    if xs != [] {
      assert (xs + ys)[1..] == xs[1..] + ys;
      ConcatAppend(xs[1..], ys);
    } else {
      assert xs + ys == ys;
    }
  }
}
