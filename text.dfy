/** The Python string and list primitives the pipeline is built from: `str.strip`,
    `str.split` and `str.join` on a one-character separator, the substring test `in`,
    `str.endswith`, `str.replace(old, "")`, a list comprehension with a filter, and
    slicing with Python's index normalisation. */
module Text {

  /** Python's `str.isspace` on one character: the characters that an argument-less
      `strip()` removes. */
  predicate IsPySpace(c: char) {
    || c == ' '
    || ('\t' <= c <= '\r')
    || ('\U{1C}' <= c <= '\U{1F}')
    || c == '\U{85}' || c == '\U{A0}' || c == '\U{1680}'
    || ('\U{2000}' <= c <= '\U{200A}')
    || c == '\U{2028}' || c == '\U{2029}' || c == '\U{202F}' || c == '\U{205F}' || c == '\U{3000}'
  }

  predicate IsSlash(c: char) {
    c == '/'
  }

  /** Removes the leading characters that `drop` selects. */
  function TrimLeft(s: string, drop: char -> bool): (r: string)
    ensures |r| <= |s| && r == s[|s| - |r|..]
    ensures forall k :: 0 <= k < |s| - |r| ==> drop(s[k])
    ensures r != [] ==> !drop(r[0])
  {
    if s != [] && drop(s[0]) then TrimLeft(s[1..], drop) else s
  }

  /** Removes the trailing characters that `drop` selects. */
  function TrimRight(s: string, drop: char -> bool): (r: string)
    ensures |r| <= |s| && r == s[..|r|]
    ensures forall k :: |r| <= k < |s| ==> drop(s[k])
    ensures r != [] ==> !drop(r[|r| - 1])
  {
    if s != [] && drop(s[|s| - 1]) then TrimRight(s[..|s| - 1], drop) else s
  }

  /** Python's `s.strip(chars)`: the infix of `s` left once every leading and every
      trailing character that `drop` selects is removed. */
  function Trim(s: string, drop: char -> bool): (r: string)
    ensures r != [] ==> !drop(r[0]) && !drop(r[|r| - 1])
    ensures var lo := |s| - |TrimLeft(s, drop)|;
      && lo + |r| <= |s| && r == s[lo..lo + |r|]
      && (forall k :: 0 <= k < lo ==> drop(s[k]))
      && (forall k :: lo + |r| <= k < |s| ==> drop(s[k]))
  {
    TrimRight(TrimLeft(s, drop), drop)
  }

  /** Python's `s.strip()`: no whitespace is left at either end, and a string
      already without edge whitespace comes back unchanged. */
  function Strip(s: string): (r: string)
    ensures r != [] ==> !IsPySpace(r[0]) && !IsPySpace(r[|r| - 1])
    ensures (s != [] ==> !IsPySpace(s[0]) && !IsPySpace(s[|s| - 1])) ==> r == s
  {
    Trim(s, IsPySpace)
  }

  /** Python's `s.strip("/")`. */
  function StripSlashes(s: string): string {
    Trim(s, IsSlash)
  }

  /** Trimming leaves a string alone whose ends are already kept characters. */
  lemma TrimKeeps(s: string, drop: char -> bool)
    requires s != [] ==> !drop(s[0]) && !drop(s[|s| - 1])
    ensures Trim(s, drop) == s
  {
  }

  /** Python's `sep.join(parts)` for a one-character separator. */
  function Join(parts: seq<string>, sep: char): string {
    if |parts| == 0 then []
    else if |parts| == 1 then parts[0]
    else parts[0] + [sep] + Join(parts[1..], sep)
  }

  /** Python's `s.split(sep)` for a one-character separator: the pieces between the
      separators, empty pieces included; a string without a separator is one piece. */
  function Split(s: string, sep: char): (pieces: seq<string>)
    ensures |pieces| >= 1
    ensures sep in s ==> |pieces| >= 2
    ensures forall i :: 0 <= i < |pieces| ==> sep !in pieces[i]
  {
    if s == [] then [[]]
    else
      var rest := Split(s[1..], sep);
      if s[0] == sep then [[]] + rest
      else [[s[0]] + rest[0]] + rest[1..]
  }

  /** Joining the pieces of a split gives back the string that was split. */
  lemma {:induction false} JoinSplit(s: string, sep: char)
    ensures Join(Split(s, sep), sep) == s
  {
    if s != [] {
      var rest := Split(s[1..], sep);
      JoinSplit(s[1..], sep);
      if s[0] == sep {
        assert Split(s, sep) == [[]] + rest;
      } else {
        var pieces := Split(s, sep);
        assert pieces == [[s[0]] + rest[0]] + rest[1..];
        if |rest| == 1 {
          assert Join(pieces, sep) == [s[0]] + rest[0];
        } else {
          assert pieces[1..] == rest[1..];
          assert Join(rest, sep) == rest[0] + [sep] + Join(rest[1..], sep);
          assert Join(pieces, sep) == ([s[0]] + rest[0]) + [sep] + Join(rest[1..], sep);
        }
      }
    }
  }

  /** A string without the separator splits into itself alone. */
  lemma {:induction false} SplitWithoutSeparator(s: string, sep: char)
    requires sep !in s
    ensures Split(s, sep) == [s]
  {
    if s != [] {
      assert s == [s[0]] + s[1..];
      SplitWithoutSeparator(s[1..], sep);
    }
  }

  /** Splitting a piece, a separator and a tail gives the piece, then the tail's pieces. */
  lemma {:induction false} SplitAfterPiece(piece: string, sep: char, tail: string)
    requires sep !in piece
    ensures Split(piece + [sep] + tail, sep) == [piece] + Split(tail, sep)
  {
    if piece == [] {
      assert piece + [sep] + tail == [sep] + tail;
      assert ([sep] + tail)[1..] == tail;
    } else {
      var s := piece + [sep] + tail;
      assert s[1..] == piece[1..] + [sep] + tail;
      SplitAfterPiece(piece[1..], sep, tail);
      assert [piece[0]] + piece[1..] == piece;
    }
  }

  /** Splitting is the inverse of joining pieces that do not hold the separator. */
  lemma {:induction false} SplitJoin(parts: seq<string>, sep: char)
    requires |parts| >= 1
    requires forall i :: 0 <= i < |parts| ==> sep !in parts[i]
    ensures Split(Join(parts, sep), sep) == parts
  {
    if |parts| == 1 {
      SplitWithoutSeparator(parts[0], sep);
    } else {
      SplitAfterPiece(parts[0], sep, Join(parts[1..], sep));
      SplitJoin(parts[1..], sep);
      assert [parts[0]] + parts[1..] == parts;
    }
  }

  /** The elements of `xs` that `keep` selects, in their order: Python's
      `[x for x in xs if keep(x)]`. */
  function Filter<T>(xs: seq<T>, keep: T -> bool): (r: seq<T>)
    ensures |r| <= |xs|
    ensures forall i :: 0 <= i < |r| ==> r[i] in xs && keep(r[i])
    ensures forall i :: 0 <= i < |xs| && keep(xs[i]) ==> xs[i] in r
  {
    if xs == [] then []
    else (if keep(xs[0]) then [xs[0]] else []) + Filter(xs[1..], keep)
  }

  /** A filter that selects every element keeps the whole sequence. */
  lemma {:induction false} FilterKeepsAll<T>(xs: seq<T>, keep: T -> bool)
    requires forall i :: 0 <= i < |xs| ==> keep(xs[i])
    ensures Filter(xs, keep) == xs
  {
    if xs != [] {
      FilterKeepsAll(xs[1..], keep);
    }
  }

  /** A filter that selects no element keeps nothing. */
  lemma {:induction false} FilterKeepsNone<T>(xs: seq<T>, keep: T -> bool)
    requires forall i :: 0 <= i < |xs| ==> !keep(xs[i])
    ensures Filter(xs, keep) == []
  {
    if xs != [] {
      FilterKeepsNone(xs[1..], keep);
    }
  }

  /** Filtering distributes over concatenation, so it keeps the relative order. */
  lemma {:induction false} FilterAppend<T>(a: seq<T>, b: seq<T>, keep: T -> bool)
    ensures Filter(a + b, keep) == Filter(a, keep) + Filter(b, keep)
  {
    if a != [] {
      assert (a + b)[1..] == a[1..] + b;
      FilterAppend(a[1..], b, keep);
    } else {
      assert a + b == b;
    }
  }

  /** Python's normalisation of a slice bound `i` on a sequence of length `len`:
      a negative bound counts from the end, then the bound is clamped to 0..len. */
  function SliceBound(i: int, len: nat): (k: nat)
    ensures k <= len
  {
    if i < 0 then (if len + i < 0 then 0 else len + i)
    else if i > len then len
    else i
  }

  /** Python's `xs[start:]`. */
  function SliceFrom<T>(xs: seq<T>, start: int): seq<T> {
    xs[SliceBound(start, |xs|)..]
  }

  /** Python's `xs[:stop]`. */
  function SliceTo<T>(xs: seq<T>, stop: int): seq<T> {
    xs[..SliceBound(stop, |xs|)]
  }

  function Min(a: int, b: int): int {
    if a <= b then a else b
  }

  /** `xs[-n:]` with n > 0 keeps the last min(n, |xs|) elements. */
  lemma TailSlicePositive<T>(xs: seq<T>, n: int)
    requires n > 0
    ensures SliceFrom(xs, -n) == xs[|xs| - Min(n, |xs|)..]
    ensures |SliceFrom(xs, -n)| == Min(n, |xs|)
  {
  }

  /** `xs[-0:]` is `xs[0:]`: every element. */
  lemma TailSliceZero<T>(xs: seq<T>)
    ensures SliceFrom(xs, -0) == xs
  {
  }

  /** `xs[-n:]` with n < 0 is `xs[|n|:]`: it drops a prefix of |n| elements. */
  lemma TailSliceNegative<T>(xs: seq<T>, n: int)
    requires n < 0
    ensures SliceFrom(xs, -n) == xs[Min(-n, |xs|)..]
  {
  }

  predicate StartsWith(s: string, prefix: string) {
    |prefix| <= |s| && s[..|prefix|] == prefix
  }

  /** Python's `s.endswith(suffix)`. */
  predicate EndsWith(s: string, suffix: string) {
    |suffix| <= |s| && s[|s| - |suffix|..] == suffix
  }

  /** Python's `pattern in s` for strings: `pattern` occurs somewhere in `s`. */
  predicate Contains(s: string, pattern: string)
    decreases |s|
  {
    StartsWith(s, pattern) || (s != [] && Contains(s[1..], pattern))
  }

  /** An occurrence at a known position is an occurrence. */
  lemma {:induction false} ContainsAt(s: string, pattern: string, i: nat)
    requires i + |pattern| <= |s| && s[i..i + |pattern|] == pattern
    ensures Contains(s, pattern)
  {
    if i > 0 {
      assert s[1..][i - 1..i - 1 + |pattern|] == s[i..i + |pattern|];
      ContainsAt(s[1..], pattern, i - 1);
    }
  }

  /** An occurrence gives a position. */
  lemma {:induction false} ContainsGivesPosition(s: string, pattern: string) returns (i: nat)
    requires Contains(s, pattern)
    ensures i + |pattern| <= |s| && s[i..i + |pattern|] == pattern
    decreases |s|
  {
    if StartsWith(s, pattern) {
      i := 0;
    } else {
      var j := ContainsGivesPosition(s[1..], pattern);
      i := j + 1;
      assert s[1..][j..j + |pattern|] == s[i..i + |pattern|];
    }
  }

  /** Python's `s.replace(pattern, "")`: every occurrence found scanning left to right,
      without overlaps, is removed: the result is never longer, and strictly shorter
      when the pattern occurs. */
  function RemoveAll(s: string, pattern: string): (r: string)
    requires pattern != []
    ensures |r| <= |s|
    ensures Contains(s, pattern) ==> |r| < |s|
    decreases |s|
  {
    if s == [] then []
    else if StartsWith(s, pattern) then RemoveAll(s[|pattern|..], pattern)
    else [s[0]] + RemoveAll(s[1..], pattern)
  }

  /** Removing a pattern that does not occur changes nothing. */
  lemma {:induction false} RemoveAllAbsent(s: string, pattern: string)
    requires pattern != []
    requires !Contains(s, pattern)
    ensures RemoveAll(s, pattern) == s
    decreases |s|
  {
    if s != [] {
      RemoveAllAbsent(s[1..], pattern);
    }
  }

  /** Removing the pattern from `pattern + t` removes the leading copy, then works on `t`. */
  lemma RemoveAllLeading(pattern: string, t: string)
    requires pattern != []
    ensures RemoveAll(pattern + t, pattern) == RemoveAll(t, pattern)
  {
    assert (pattern + t)[..|pattern|] == pattern;
    assert (pattern + t)[|pattern|..] == t;
  }
}
