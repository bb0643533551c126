/**
 * The few Python string operations the extractors rely on, written out:
 * whitespace as `str.isspace()` and the regular-expression class `\s` see it,
 * `str.strip()`, substring search (`p in s`), `sep.join(parts)` and
 * `s.split(sep)`.
 */
module Text {
  import opened Wrappers

  /**
   * Python's whitespace: the characters for which `str.isspace()` holds,
   * which are also those `\s` matches in a `str` pattern.
   */
  const Whitespace: set<char> := {
      '\t', '\n', '\U{B}', '\U{C}', '\r', '\U{1C}', '\U{1D}', '\U{1E}',
      '\U{1F}', ' ', '\U{85}', '\U{A0}', '\U{1680}', '\U{2000}', '\U{2001}', '\U{2002}',
      '\U{2003}', '\U{2004}', '\U{2005}', '\U{2006}', '\U{2007}', '\U{2008}', '\U{2009}', '\U{200A}',
      '\U{2028}', '\U{2029}', '\U{202F}', '\U{205F}', '\U{3000}'
    }

  predicate IsSpace(c: char) {
    c in Whitespace
  }

  /** `s` without its leading whitespace; also what a greedy `\s+` consumes. */
  function TrimStart(s: string): (r: string)
    ensures |r| <= |s| && r == s[|s| - |r|..]
    ensures forall i :: 0 <= i < |s| - |r| ==> IsSpace(s[i])
    ensures r != [] ==> !IsSpace(r[0])
  {
    if s != [] && IsSpace(s[0]) then
      var r := TrimStart(s[1..]);
      assert forall i :: 1 <= i < |s| - |r| ==> s[i] == s[1..][i - 1];
      r
    else s
  }

  /** What `TrimStart` leaves ends where `s` ends; when it leaves nothing, `s` ends in whitespace. */
  lemma TrimStartLast(s: string)
    ensures s != [] && TrimStart(s) == [] ==> IsSpace(s[|s| - 1])
    ensures TrimStart(s) != [] ==> TrimStart(s)[|TrimStart(s)| - 1] == s[|s| - 1]
  {
  }

  /** `s` without its trailing whitespace. */
  function TrimEnd(s: string): (r: string)
    ensures |r| <= |s| && r == s[..|r|]
    ensures forall i :: |r| <= i < |s| ==> IsSpace(s[i])
    ensures r != [] ==> !IsSpace(r[|r| - 1])
  {
    if s != [] && IsSpace(s[|s| - 1]) then
      var r := TrimEnd(s[..|s| - 1]);
      assert forall i :: |r| <= i < |s| - 1 ==> s[i] == s[..|s| - 1][i];
      r
    else s
  }

  /**
   * Python's `s.strip()`: the stretch of `s` that is left once the whitespace
   * at its start and the whitespace at its end are cut off.
   */
  function Strip(s: string): (r: string)
    ensures |r| <= |s|
    ensures r != [] ==> !IsSpace(r[0]) && !IsSpace(r[|r| - 1])
    ensures (s == [] || (!IsSpace(s[0]) && !IsSpace(s[|s| - 1]))) ==> r == s
  {
    TrimEnd(TrimStart(s))
  }

  /**
   * `s.strip()` is the stretch of `s` left between the whitespace at its start
   * and the whitespace at its end, it keeps every character of `s` that is not
   * whitespace, in order, it has no whitespace at either end, and it is `s`
   * itself when `s` has none there.
   */
  lemma StripShape(s: string)
    ensures exists a: nat :: StrippedAt(s, Strip(s), a)
    ensures Filter(Strip(s), Visible) == Filter(s, Visible)
    ensures Strip(s) != [] ==> !IsSpace(Strip(s)[0]) && !IsSpace(Strip(s)[|Strip(s)| - 1])
    ensures (s == [] || (!IsSpace(s[0]) && !IsSpace(s[|s| - 1]))) ==> Strip(s) == s
  {
    TrimBoth(s);
    StripKeepsText(s);
  }

  /** Trimming both ends leaves the stretch after the leading whitespace and before the trailing. */
  lemma TrimBoth(s: string)
    ensures StrippedAt(s, TrimEnd(TrimStart(s)), |s| - |TrimStart(s)|)
  {
    StrippedTwice(s, TrimStart(s), TrimEnd(TrimStart(s)));
  }

  /** A tail of `s` after whitespace, then a head of that tail before whitespace, is a stripped stretch of `s`. */
  lemma StrippedTwice(s: string, t: string, r: string)
    requires |t| <= |s| && t == s[|s| - |t|..]
    requires forall i :: 0 <= i < |s| - |t| ==> IsSpace(s[i])
    requires |r| <= |t| && r == t[..|r|]
    requires forall i :: |r| <= i < |t| ==> IsSpace(t[i])
    ensures StrippedAt(s, r, |s| - |t|)
  {
    var a := |s| - |t|;
    assert r == s[a..a + |r|];
    forall i | a + |r| <= i < |s|
      ensures IsSpace(s[i])
    {
      assert s[i] == t[i - a];
    }
  }

  /** `r` is the stretch of `s` starting at `a`, with only whitespace before it and after it. */
  predicate StrippedAt(s: string, r: string, a: nat) {
    && a + |r| <= |s| && r == s[a..a + |r|]
    && (forall i :: 0 <= i < a ==> IsSpace(s[i]))
    && (forall i :: a + |r| <= i < |s| ==> IsSpace(s[i]))
  }

  /** Non-empty, with no whitespace at either end: what `strip()` leaves of a text that is not blank. */
  predicate Trimmed(t: string) {
    t != [] && !IsSpace(t[0]) && !IsSpace(t[|t| - 1])
  }

  /** `s.strip()` is empty exactly when `s` is all whitespace. */
  lemma StripEmpty(s: string)
    ensures Strip(s) == [] <==> forall i :: 0 <= i < |s| ==> IsSpace(s[i])
  {
    var t := TrimStart(s);
    if t != [] {
      assert !IsSpace(s[|s| - |t|]);
    }
  }

  /** `s.strip()` holds no character that `s` does not. */
  lemma StripAvoids(s: string, c: char)
    requires c !in s
    ensures c !in Strip(s)
  {
    TrimStartAvoids(s, c);
  }

  /** What `TrimStart` leaves holds no character that `s` does not. */
  lemma TrimStartAvoids(s: string, c: char)
    requires c !in s
    ensures c !in TrimStart(s)
  {
    var t := TrimStart(s);
    assert t == s[|s| - |t|..];
  }

  /** The characters of `s` that `keep` accepts, in their order. */
  function Filter(s: string, keep: char -> bool): (r: string)
    ensures |r| <= |s|
  {
    if s == [] then [] else (if keep(s[0]) then [s[0]] else []) + Filter(s[1..], keep)
  }

  lemma FilterCons(c: char, x: string, keep: char -> bool)
    ensures Filter([c] + x, keep) == (if keep(c) then [c] else []) + Filter(x, keep)
  {
    assert ([c] + x)[1..] == x;
  }

  /** Filtering a concatenation filters each part. */
  lemma {:induction false} FilterAppend(a: string, b: string, keep: char -> bool)
    ensures Filter(a + b, keep) == Filter(a, keep) + Filter(b, keep)
    decreases |a|
  {
    if a == [] {
      assert a + b == b;
    } else {
      assert a + b == [a[0]] + (a[1..] + b);
      assert a == [a[0]] + a[1..];
      FilterCons(a[0], a[1..] + b, keep);
      FilterCons(a[0], a[1..], keep);
      FilterAppend(a[1..], b, keep);
    }
  }

  /** A text of rejected characters filters to nothing. */
  lemma {:induction false} FilterRejected(s: string, keep: char -> bool)
    requires forall i :: 0 <= i < |s| ==> !keep(s[i])
    ensures Filter(s, keep) == []
    decreases |s|
  {
    if s != [] {
      assert forall i :: 0 <= i < |s| - 1 ==> s[1..][i] == s[i + 1];
      FilterRejected(s[1..], keep);
    }
  }

  /** Not whitespace: the characters every whitespace rewrite must keep. */
  predicate Visible(c: char) {
    !IsSpace(c)
  }

  /** `s.strip()` keeps every character of `s` that is not whitespace, in order. */
  lemma StripKeepsText(s: string)
    ensures Filter(Strip(s), Visible) == Filter(s, Visible)
  {
    var a := |s| - |TrimStart(s)|;
    TrimBoth(s);
    StrippedFilter(s, Strip(s), a);
  }

  /** A stretch with only whitespace around it keeps every character of the text that is not whitespace. */
  lemma StrippedFilter(s: string, r: string, a: nat)
    requires StrippedAt(s, r, a)
    ensures Filter(r, Visible) == Filter(s, Visible)
  {
    FilterMiddle(s, a, a + |r|, Visible);
  }

  /** When `keep` rejects everything outside `s[a..b]`, filtering `s` is filtering that stretch. */
  lemma FilterMiddle(s: string, a: nat, b: nat, keep: char -> bool)
    requires a <= b <= |s|
    requires forall i :: 0 <= i < a ==> !keep(s[i])
    requires forall i :: b <= i < |s| ==> !keep(s[i])
    ensures Filter(s, keep) == Filter(s[a..b], keep)
  {
    FilterDropBack(s, b, keep);
    assert s[..b][a..] == s[a..b];
    FilterDropFront(s[..b], a, keep);
  }

  /** Rejected characters at the start of `s` do not change its filtering. */
  lemma {:induction false} FilterDropFront(s: string, a: nat, keep: char -> bool)
    requires a <= |s|
    requires forall i :: 0 <= i < a ==> !keep(s[i])
    ensures Filter(s, keep) == Filter(s[a..], keep)
    decreases a
  {
    if a > 0 {
      assert s[1..][a - 1..] == s[a..];
      FilterDropFront(s[1..], a - 1, keep);
    }
  }

  /** Rejected characters at the end of `s` do not change its filtering. */
  lemma FilterDropBack(s: string, b: nat, keep: char -> bool)
    requires b <= |s|
    requires forall i :: b <= i < |s| ==> !keep(s[i])
    ensures Filter(s, keep) == Filter(s[..b], keep)
  {
    var head, tail := s[..b], s[b..];
    assert s == head + tail;
    assert forall i :: 0 <= i < |tail| ==> tail[i] == s[b + i];
    FilterAppend(head, tail, keep);
    FilterRejected(tail, keep);
  }

  /** `p` occurs in `s` starting at index `i`. */
  predicate OccursAt(s: string, p: string, i: nat) {
    i + |p| <= |s| && s[i..i + |p|] == p
  }

  /** Python's `p in s` on strings. */
  predicate Contains(s: string, p: string) {
    exists i: nat :: i <= |s| && OccursAt(s, p, i)
  }

  /** A pattern whose first character never appears in `s` does not occur in `s`. */
  lemma AbsentFirstChar(s: string, p: string)
    requires p != [] && p[0] !in s
    ensures !Contains(s, p)
  {
  }

  /** The leftmost occurrence of `p` in `s` at or after `from` (Python's `s.find(p, from)`). */
  function IndexOf(s: string, p: string, from: nat): (r: Option<nat>)
    requires from <= |s|
    ensures r.Some? ==> from <= r.value && OccursAt(s, p, r.value)
    ensures forall i: nat :: from <= i && (r.None? || i < r.value) ==> !OccursAt(s, p, i)
    decreases |s| - from
  {
    if OccursAt(s, p, from) then Some(from)
    else if from == |s| then None
    else IndexOf(s, p, from + 1)
  }

  /** Python's `sep.join(parts)`. */
  function JoinWith(parts: seq<string>, sep: string): string {
    if |parts| == 0 then ""
    else if |parts| == 1 then parts[0]
    else parts[0] + sep + JoinWith(parts[1..], sep)
  }

  /** Python's `s.split(sep)` for a non-empty separator: cut at every leftmost, non-overlapping occurrence. */
  function SplitOn(s: string, sep: string): (r: seq<string>)
    requires sep != []
    ensures |r| >= 1
    decreases |s|
  {
    match IndexOf(s, sep, 0)
    case None => [s]
    case Some(k) => [s[..k]] + SplitOn(s[k + |sep|..], sep)
  }

  /** A character that is neither in the separator nor in any part is not in the joined string. */
  lemma {:induction false} JoinWithAvoids(parts: seq<string>, sep: string, c: char)
    requires c !in sep
    requires forall i :: 0 <= i < |parts| ==> c !in parts[i]
    ensures c !in JoinWith(parts, sep)
  {
    if |parts| > 1 {
      JoinWithAvoids(parts[1..], sep, c);
      assert c !in parts[0];
      var r := JoinWith(parts[1..], sep);
      assert JoinWith(parts, sep) == parts[0] + sep + r;
    }
  }

  /** The first occurrence of `sep` in `head + sep + rest` is the one after `head`, when `head` lacks `sep[0]`. */
  lemma SeparatorAfterHead(head: string, sep: string, rest: string)
    requires sep != [] && sep[0] !in head
    ensures IndexOf(head + sep + rest, sep, 0) == Some(|head|)
    ensures (head + sep + rest)[..|head|] == head
    ensures (head + sep + rest)[|head| + |sep|..] == rest
  {
    var s := head + sep + rest;
    var k := |head|;
    assert s[k..k + |sep|] == sep;
    assert OccursAt(s, sep, k);
  }

  /** Joining with `sep` and splitting on `sep` gives the parts back, when no part holds the separator's first character. */
  lemma {:induction false} SplitOnJoinWith(parts: seq<string>, sep: string)
    requires sep != [] && parts != []
    requires forall i :: 0 <= i < |parts| ==> sep[0] !in parts[i]
    ensures SplitOn(JoinWith(parts, sep), sep) == parts
  {
    if |parts| == 1 {
      AbsentFirstChar(parts[0], sep);
      assert IndexOf(parts[0], sep, 0) == None;
    } else {
      var rest := JoinWith(parts[1..], sep);
      var s := parts[0] + sep + rest;
      assert JoinWith(parts, sep) == s;
      SeparatorAfterHead(parts[0], sep, rest);
      SplitOnJoinWith(parts[1..], sep);
      assert SplitOn(s, sep) == [parts[0]] + SplitOn(rest, sep);
    }
  }

  /** `s` without the run of separator characters it starts with. */
  function SkipRun(s: string, sep: char -> bool): (r: string)
    ensures |r| <= |s| && r == s[|s| - |r|..]
    ensures r != [] ==> !sep(r[0])
  {
    if s != [] && sep(s[0]) then SkipRun(s[1..], sep) else s
  }

  /** Skipping a run of whitespace is `TrimStart`. */
  lemma {:induction false} SkipSpacesIsTrimStart(s: string)
    ensures SkipRun(s, IsSpace) == TrimStart(s)
    decreases |s|
  {
    if s != [] && IsSpace(s[0]) {
      SkipSpacesIsTrimStart(s[1..]);
    }
  }

  /**
   * `re.split('[X]+', s)` for a character class `X` given by `sep`: the
   * stretches of `s` between its maximal runs of separators, with an empty
   * piece at an end where a run touches it.
   */
  function SplitRuns(s: string, sep: char -> bool): (r: seq<string>)
    ensures |r| >= 1
    ensures forall i, j :: 0 <= i < |r| && 0 <= j < |r[i]| ==> !sep(r[i][j])
    ensures s != [] && !sep(s[0]) ==> r[0] != []
    decreases |s|
  {
    if s == [] then [[]]
    else if sep(s[0]) then [[]] + SplitRuns(SkipRun(s[1..], sep), sep)
    else
      var r := SplitRuns(s[1..], sep);
      [[s[0]] + r[0]] + r[1..]
  }

  /** Only the first and the last piece of a split on separator runs can be empty. */
  lemma {:induction false} SplitRunsInterior(s: string, sep: char -> bool)
    ensures forall i :: 0 < i < |SplitRuns(s, sep)| - 1 ==> SplitRuns(s, sep)[i] != []
    decreases |s|
  {
    if s != [] {
      var r := SplitRuns(s, sep);
      if sep(s[0]) {
        var t := SkipRun(s[1..], sep);
        SplitRunsInterior(t, sep);
        assert r == [[]] + SplitRuns(t, sep);
      } else {
        var q := SplitRuns(s[1..], sep);
        SplitRunsInterior(s[1..], sep);
        assert r == [[s[0]] + q[0]] + q[1..];
      }
    }
  }

  /** Joining a head in front of at least one part puts one separator after it. */
  lemma JoinWithCons(head: string, parts: seq<string>, sep: string)
    requires parts != []
    ensures JoinWith([head] + parts, sep) == head + sep + JoinWith(parts, sep)
  {
    assert ([head] + parts)[1..] == parts;
  }

  /** A character put in front of the first part ends up in front of the joined text. */
  lemma JoinWithFirst(c: char, parts: seq<string>, sep: string)
    requires parts != []
    ensures JoinWith([[c] + parts[0]] + parts[1..], sep) == [c] + JoinWith(parts, sep)
  {
    var q := [[c] + parts[0]] + parts[1..];
    assert q[0] == [c] + parts[0];
    if |parts| > 1 {
      assert q[1..] == parts[1..];
    }
  }
}
