/**
 * `format_transcript` of api/youtube_text_extractor.py and of
 * youtube_text_extractor.py, as functions of the cue texts:
 *
 *   1. each cue text is stripped; an empty text or one of the four non-speech
 *      markers is dropped; runs of newlines, then runs of whitespace, become
 *      one space (`CleanLine`, `CleanLines`);
 *   2. the kept lines are joined with one space;
 *   3. the joined text is cut by `re.split(r'[.!?]\s+', …)` (`SplitSentences`);
 *   4. each piece is stripped, kept only when longer than three characters,
 *      and given a full stop unless it already ends in `.`, `!` or `?`
 *      (`FinishSentence`, `FinishSentences`);
 *   5. the sentences are joined with a blank line (`Normalize`).
 *
 * The two loops of the source are the methods `FormatTranscript` of the
 * extractor classes, proved against `CleanLines` and `FinishSentences`.
 * The plain formatter of api/extract.py is `SimpleFormat` at the end.
 */
module Normalizer {
  import opened Wrappers
  import opened Text
  import opened Types

  /** Cue texts that carry no speech and are dropped. */
  const NonSpeechMarkers: seq<string> := ["[음악]", "[Music]", "[Applause]", "[박수]"]

  /** `t in texts`, one element at a time. */
  predicate Listed(t: string, texts: seq<string>)
    decreases |texts|
  {
    texts != [] && (texts[0] == t || Listed(t, texts[1..]))
  }

  /** `Listed` is sequence membership. */
  lemma {:induction false} ListedIsIn(t: string, texts: seq<string>)
    ensures Listed(t, texts) <==> t in texts
    decreases |texts|
  {
    if texts != [] {
      ListedIsIn(t, texts[1..]);
      assert texts == [texts[0]] + texts[1..];
    }
  }

  /** `t` is one of the non-speech markers. */
  predicate IsMarker(t: string) {
    Listed(t, NonSpeechMarkers)
  }

  /** A sentence terminator: `.`, `!` or `?`. */
  predicate IsTerminator(c: char) {
    c == '.' || c == '!' || c == '?'
  }

  /** Two whitespace characters in a row at `i`. */
  predicate DoubleSpaceAt(s: string, i: nat)
    requires i + 1 < |s|
  {
    IsSpace(s[i]) && IsSpace(s[i + 1])
  }

  /** Every whitespace character is a plain space and none follows another. */
  predicate Spaced(s: string) {
    && (forall i :: 0 <= i < |s| && IsSpace(s[i]) ==> s[i] == ' ')
    && (forall i :: 0 <= i < |s| - 1 ==> !DoubleSpaceAt(s, i))
  }

  /** A line as it leaves the first loop: non-empty, no whitespace at either end, only single plain spaces inside. */
  predicate Tidy(s: string) {
    && s != []
    && !IsSpace(s[0]) && !IsSpace(s[|s| - 1])
    && Spaced(s)
  }

  /** `s` without its leading newlines. */
  function DropNewlines(s: string): (r: string)
    ensures |r| <= |s| && r == s[|s| - |r|..]
    ensures forall i :: 0 <= i < |s| - |r| ==> s[i] == '\n'
    ensures r != [] ==> r[0] != '\n'
  {
    if s != [] && s[0] == '\n' then DropNewlines(s[1..]) else s
  }

  /** `re.sub(r'\n+', ' ', s)`: every maximal run of newlines becomes one space. */
  function SquashNewlines(s: string): (r: string)
    ensures |r| <= |s|
    ensures forall i :: 0 <= i < |r| ==> r[i] != '\n'
    ensures s != [] ==> r != []
    ensures s != [] && s[0] != '\n' ==> r[0] == s[0]
    ensures s != [] && s[|s| - 1] != '\n' ==> r[|r| - 1] == s[|s| - 1]
    decreases |s|
  {
    if s == [] then []
    else if s[0] == '\n' then " " + SquashNewlines(DropNewlines(s[1..]))
    else [s[0]] + SquashNewlines(s[1..])
  }

  /** Squashing newlines changes nothing in a text without newlines, and a result without spaces is the text itself. */
  lemma {:induction false} SquashNewlinesIdentity(s: string)
    ensures (forall i :: 0 <= i < |s| ==> s[i] != '\n') ==> SquashNewlines(s) == s
    ensures (forall i :: 0 <= i < |SquashNewlines(s)| ==> SquashNewlines(s)[i] != ' ') ==> SquashNewlines(s) == s
    decreases |s|
  {
    if s != [] {
      var r := SquashNewlines(s);
      if s[0] == '\n' {
        assert r[0] == ' ';
      } else {
        var rest := SquashNewlines(s[1..]);
        SquashNewlinesIdentity(s[1..]);
        assert r == [s[0]] + rest;
        assert forall i :: 0 <= i < |rest| ==> rest[i] == r[i + 1];
        assert forall i :: 0 <= i < |s| - 1 ==> s[1..][i] == s[i + 1];
      }
    }
  }

  /** Neither a newline nor a plain space: the characters that squashing newlines leaves where they are. */
  predicate Solid(c: char) {
    c != '\n' && c != ' '
  }

  /**
   * `re.sub(r'\n+', ' ', s)` removes every newline, leaves a non-empty text
   * non-empty, and keeps every other character except the spaces it puts in,
   * in order.
   */
  lemma {:induction false} SquashNewlinesShape(s: string)
    ensures forall i :: 0 <= i < |SquashNewlines(s)| ==> SquashNewlines(s)[i] != '\n'
    ensures s != [] ==> SquashNewlines(s) != []
    ensures Filter(SquashNewlines(s), Solid) == Filter(s, Solid)
    ensures SquashNewlines(s) == JoinWith(SplitRuns(s, IsNewline), " ")
  {
    SquashNewlinesKeeps(s, Solid);
    SquashNewlinesJoins(s);
  }

  /** Squashing newlines keeps, in order, every character that is kept by a filter rejecting newlines and spaces. */
  lemma {:induction false} SquashNewlinesKeeps(s: string, keep: char -> bool)
    requires !keep('\n') && !keep(' ')
    ensures Filter(SquashNewlines(s), keep) == Filter(s, keep)
    decreases |s|
  {
    if s != [] {
      assert s == [s[0]] + s[1..];
      FilterCons(s[0], s[1..], keep);
      if s[0] == '\n' {
        var t := s[1..];
        var d := DropNewlines(t);
        SquashNewlinesKeeps(d, keep);
        FilterCons(' ', SquashNewlines(d), keep);
        FilterDropFront(t, |t| - |d|, keep);
      } else {
        SquashNewlinesKeeps(s[1..], keep);
        FilterCons(s[0], SquashNewlines(s[1..]), keep);
      }
    }
  }

  /** The one character `\n+` repeats. */
  predicate IsNewline(c: char) {
    c == '\n'
  }

  /** Skipping a run of newlines is `DropNewlines`. */
  lemma {:induction false} SkipNewlinesIsDropNewlines(s: string)
    ensures SkipRun(s, IsNewline) == DropNewlines(s)
    decreases |s|
  {
    if s != [] && s[0] == '\n' {
      assert IsNewline(s[0]);
      SkipNewlinesIsDropNewlines(s[1..]);
    }
  }

  /** Replacing each maximal run of newlines by one space is splitting on those runs and joining with a space. */
  lemma {:induction false} SquashNewlinesJoins(s: string)
    ensures SquashNewlines(s) == JoinWith(SplitRuns(s, IsNewline), " ")
    decreases |s|
  {
    if s != [] {
      if s[0] == '\n' {
        var t := DropNewlines(s[1..]);
        SkipNewlinesIsDropNewlines(s[1..]);
        assert IsNewline(s[0]);
        assert SplitRuns(s, IsNewline) == [[]] + SplitRuns(t, IsNewline);
        assert SquashNewlines(s) == " " + SquashNewlines(t);
        SquashNewlinesJoins(t);
        JoinWithCons([], SplitRuns(t, IsNewline), " ");
      } else {
        var q := SplitRuns(s[1..], IsNewline);
        assert !IsNewline(s[0]);
        assert SplitRuns(s, IsNewline) == [[s[0]] + q[0]] + q[1..];
        assert SquashNewlines(s) == [s[0]] + SquashNewlines(s[1..]);
        SquashNewlinesJoins(s[1..]);
        JoinWithFirst(s[0], q, " ");
      }
    }
  }

  /** Putting `c` in front of a single-spaced text keeps it single-spaced, unless `c` is whitespace other than a plain space or both `c` and the text's first character are whitespace. */
  lemma ConsSpaced(c: char, x: string)
    requires Spaced(x)
    requires IsSpace(c) ==> c == ' ' && (x == [] || !IsSpace(x[0]))
    ensures Spaced([c] + x)
  {
    var r := [c] + x;
    assert forall i :: 0 <= i < |x| ==> r[i + 1] == x[i];
    forall i | 0 <= i < |r| - 1 ensures !DoubleSpaceAt(r, i) {
      if i > 0 {
        assert !DoubleSpaceAt(x, i - 1);
      }
    }
  }

  /** `re.sub(r'\s+', ' ', s)`: every maximal run of whitespace becomes one space. */
  function SquashSpaces(s: string): (r: string)
    ensures |r| <= |s|
    decreases |s|
  {
    if s == [] then []
    else if IsSpace(s[0]) then " " + SquashSpaces(TrimStart(s[1..]))
    else [s[0]] + SquashSpaces(s[1..])
  }

  /** The squashed text starts with whitespace exactly when the text does. */
  lemma SquashSpacesFirst(s: string)
    requires s != []
    ensures SquashSpaces(s) != [] && (IsSpace(SquashSpaces(s)[0]) <==> IsSpace(s[0]))
  {
    assert IsSpace(' ');
  }

  /** The squashed text ends with whitespace exactly when the text does. */
  lemma {:induction false} SquashSpacesLast(s: string)
    requires s != []
    ensures IsSpace(SquashSpaces(s)[|SquashSpaces(s)| - 1]) <==> IsSpace(s[|s| - 1])
    decreases |s|
  {
    var r := SquashSpaces(s);
    if IsSpace(s[0]) {
      var t := TrimStart(s[1..]);
      assert r == " " + SquashSpaces(t);
      TrimStartLast(s[1..]);
      if t != [] {
        assert t[|t| - 1] == s[|s| - 1];
        SquashSpacesLast(t);
        SquashSpacesFirst(t);
        assert r[|r| - 1] == SquashSpaces(t)[|SquashSpaces(t)| - 1];
      } else {
        assert IsSpace(' ');
        assert |s| > 1 ==> s[1..][|s| - 2] == s[|s| - 1];
      }
    } else if |s| > 1 {
      var rest := SquashSpaces(s[1..]);
      assert r == [s[0]] + rest;
      SquashSpacesLast(s[1..]);
      SquashSpacesFirst(s[1..]);
      assert r[|r| - 1] == rest[|rest| - 1];
    }
  }

  /** The squashed text is single-spaced. */
  lemma {:induction false} SquashSpacesSpaced(s: string)
    ensures Spaced(SquashSpaces(s))
    decreases |s|
  {
    if s != [] {
      if IsSpace(s[0]) {
        var t := TrimStart(s[1..]);
        SquashSpacesSpaced(t);
        if t != [] {
          SquashSpacesFirst(t);
        }
        ConsSpaced(' ', SquashSpaces(t));
      } else {
        SquashSpacesSpaced(s[1..]);
        ConsSpaced(s[0], SquashSpaces(s[1..]));
      }
    }
  }

  /** Squashing whitespace keeps every character that is not whitespace, in order. */
  lemma {:induction false} SquashSpacesKeeps(s: string)
    ensures Filter(SquashSpaces(s), Visible) == Filter(s, Visible)
    decreases |s|
  {
    if s != [] {
      assert s == [s[0]] + s[1..];
      FilterCons(s[0], s[1..], Visible);
      if IsSpace(s[0]) {
        var t := s[1..];
        var d := TrimStart(t);
        SquashSpacesKeeps(d);
        assert IsSpace(' ');
        FilterCons(' ', SquashSpaces(d), Visible);
        FilterDropFront(t, |t| - |d|, Visible);
      } else {
        SquashSpacesKeeps(s[1..]);
        FilterCons(s[0], SquashSpaces(s[1..]), Visible);
      }
    }
  }

  /**
   * The squashed text is single-spaced, keeps every character that is not
   * whitespace in order, and starts and ends with whitespace exactly when the
   * text does.
   */
  lemma SquashSpacesShape(s: string)
    ensures Spaced(SquashSpaces(s))
    ensures Filter(SquashSpaces(s), Visible) == Filter(s, Visible)
    ensures s != [] ==> SquashSpaces(s) != [] && (IsSpace(SquashSpaces(s)[0]) <==> IsSpace(s[0]))
    ensures s != [] ==> (IsSpace(SquashSpaces(s)[|SquashSpaces(s)| - 1]) <==> IsSpace(s[|s| - 1]))
    ensures SquashSpaces(s) == JoinWith(SplitRuns(s, IsSpace), " ")
  {
    SquashSpacesSpaced(s);
    SquashSpacesKeeps(s);
    SquashSpacesJoins(s);
    if s != [] {
      SquashSpacesFirst(s);
      SquashSpacesLast(s);
    }
  }

  /** The tail of a single-spaced text is single-spaced. */
  lemma SpacedTail(s: string)
    requires s != [] && Spaced(s)
    ensures Spaced(s[1..])
  {
    var tail := s[1..];
    forall i | 0 <= i < |tail| - 1 ensures !DoubleSpaceAt(tail, i) {
      assert !DoubleSpaceAt(s, i + 1);
    }
  }

  /** Squashing whitespace changes nothing in a text that is already single-spaced. */
  lemma {:induction false} SquashSpacedIdentity(s: string)
    requires Spaced(s)
    ensures SquashSpaces(s) == s
    decreases |s|
  {
    if s != [] {
      var tail := s[1..];
      SpacedTail(s);
      SquashSpacedIdentity(tail);
      if IsSpace(s[0]) {
        assert s[0] == ' ';
        if tail != [] {
          assert !DoubleSpaceAt(s, 0);
          assert !IsSpace(tail[0]);
        }
        assert TrimStart(tail) == tail;
        assert SquashSpaces(s) == " " + SquashSpaces(tail);
      } else {
        assert SquashSpaces(s) == [s[0]] + SquashSpaces(tail);
      }
      assert s == [s[0]] + tail;
    }
  }

  /** A squashed text without whitespace is the text itself. */
  lemma {:induction false} SquashUnspacedIdentity(s: string)
    requires forall i :: 0 <= i < |SquashSpaces(s)| ==> !IsSpace(SquashSpaces(s)[i])
    ensures SquashSpaces(s) == s
    decreases |s|
  {
    if s != [] {
      var r := SquashSpaces(s);
      SquashSpacesFirst(s);
      assert !IsSpace(r[0]);
      var rest := SquashSpaces(s[1..]);
      assert r == [s[0]] + rest;
      assert forall i :: 0 <= i < |rest| ==> rest[i] == r[i + 1];
      SquashUnspacedIdentity(s[1..]);
      assert s == [s[0]] + s[1..];
    }
  }

  /** Squashing whitespace changes nothing in a text that is already single-spaced, and a result without whitespace is the text itself. */
  lemma SquashSpacesIdentity(s: string)
    ensures Spaced(s) ==> SquashSpaces(s) == s
    ensures (forall i :: 0 <= i < |SquashSpaces(s)| ==> !IsSpace(SquashSpaces(s)[i])) ==> SquashSpaces(s) == s
  {
    if Spaced(s) {
      SquashSpacedIdentity(s);
    }
    if forall i :: 0 <= i < |SquashSpaces(s)| ==> !IsSpace(SquashSpaces(s)[i]) {
      SquashUnspacedIdentity(s);
    }
  }

  /** Leading newlines are whitespace, so dropping them first does not change what stripping the start leaves. */
  lemma {:induction false} TrimAfterDropNewlines(t: string)
    ensures TrimStart(DropNewlines(t)) == TrimStart(t)
    decreases |t|
  {
    if t != [] && t[0] == '\n' {
      assert IsSpace('\n');
      TrimAfterDropNewlines(t[1..]);
    }
  }

  /** `TrimStart` skips a leading character that is whitespace. */
  lemma TrimPastSpace(c: char, x: string)
    requires IsSpace(c)
    ensures TrimStart([c] + x) == TrimStart(x)
  {
    assert ([c] + x)[1..] == x;
  }

  /** `TrimStart` keeps a leading character that is not whitespace. */
  lemma TrimStopsAt(c: char, x: string)
    requires !IsSpace(c)
    ensures TrimStart([c] + x) == [c] + x
  {
  }

  /** `re.sub(r'\s+', ' ', s)` is `' '.join(re.split(r'\s+', s))`: each maximal whitespace run becomes exactly one space. */
  lemma {:induction false} SquashSpacesJoins(s: string)
    ensures SquashSpaces(s) == JoinWith(SplitRuns(s, IsSpace), " ")
    decreases |s|
  {
    if s != [] {
      if IsSpace(s[0]) {
        var t := TrimStart(s[1..]);
        SkipSpacesIsTrimStart(s[1..]);
        assert SplitRuns(s, IsSpace) == [[]] + SplitRuns(t, IsSpace);
        assert SquashSpaces(s) == " " + SquashSpaces(t);
        SquashSpacesJoins(t);
        JoinWithCons([], SplitRuns(t, IsSpace), " ");
      } else {
        var q := SplitRuns(s[1..], IsSpace);
        assert SplitRuns(s, IsSpace) == [[s[0]] + q[0]] + q[1..];
        assert SquashSpaces(s) == [s[0]] + SquashSpaces(s[1..]);
        SquashSpacesJoins(s[1..]);
        JoinWithFirst(s[0], q, " ");
      }
    }
  }

  /** `SquashSpaces` on a text that starts with a space or with a non-space character. */
  lemma SquashCons(c: char, x: string)
    ensures IsSpace(c) ==> SquashSpaces([c] + x) == " " + SquashSpaces(TrimStart(x))
    ensures !IsSpace(c) ==> SquashSpaces([c] + x) == [c] + SquashSpaces(x)
  {
    assert ([c] + x)[0] == c;
    assert ([c] + x)[1..] == x;
  }

  /**
   * The first substitution of the first loop is redundant: replacing newline
   * runs by a space and then whitespace runs by a space gives the same text
   * as replacing whitespace runs alone.
   */
  lemma {:induction false} NewlineSquashIsRedundant(s: string)
    ensures SquashSpaces(SquashNewlines(s)) == SquashSpaces(s)
    decreases |s|, 1
  {
    if s != [] {
      var tail := s[1..];
      assert s == [s[0]] + tail;
      SquashCons(s[0], tail);
      if s[0] == '\n' {
        var d := DropNewlines(tail);
        assert SquashNewlines(s) == [' '] + SquashNewlines(d);
        SquashCons(' ', SquashNewlines(d));
        TrimAfterDropNewlines(tail);
        SquashAfterTrimIsRedundant(d);
      } else {
        assert SquashNewlines(s) == [s[0]] + SquashNewlines(tail);
        SquashCons(s[0], SquashNewlines(tail));
        if IsSpace(s[0]) {
          SquashAfterTrimIsRedundant(tail);
        } else {
          NewlineSquashIsRedundant(tail);
        }
      }
    }
  }

  /** The same redundancy after the leading whitespace is stripped. */
  lemma {:induction false} SquashAfterTrimIsRedundant(t: string)
    ensures SquashSpaces(TrimStart(SquashNewlines(t))) == SquashSpaces(TrimStart(t))
    decreases |t|, 0
  {
    if t != [] {
      var tail := t[1..];
      assert t == [t[0]] + tail;
      if t[0] == '\n' {
        var d := DropNewlines(tail);
        assert SquashNewlines(t) == [' '] + SquashNewlines(d);
        TrimPastSpace(' ', SquashNewlines(d));
        TrimPastSpace('\n', tail);
        TrimAfterDropNewlines(tail);
        SquashAfterTrimIsRedundant(d);
      } else {
        assert SquashNewlines(t) == [t[0]] + SquashNewlines(tail);
        if IsSpace(t[0]) {
          TrimPastSpace(t[0], SquashNewlines(tail));
          TrimPastSpace(t[0], tail);
          SquashAfterTrimIsRedundant(tail);
        } else {
          TrimStopsAt(t[0], SquashNewlines(tail));
          TrimStopsAt(t[0], tail);
          SquashCons(t[0], SquashNewlines(tail));
          SquashCons(t[0], tail);
          NewlineSquashIsRedundant(tail);
        }
      }
    }
  }

  /** No marker holds whitespace. */
  lemma MarkersHaveNoSpace(m: string)
    requires IsMarker(m)
    ensures forall i :: 0 <= i < |m| ==> !IsSpace(m[i])
  {
    ListedIsIn(m, NonSpeechMarkers);
  }

  /** Squashing whitespace never turns a text that is not a marker into one. */
  lemma SquashedIsNoMarker(t: string)
    requires !IsMarker(t)
    ensures !IsMarker(SquashSpaces(SquashNewlines(t)))
  {
    var line := SquashSpaces(SquashNewlines(t));
    if IsMarker(line) {
      MarkersHaveNoSpace(line);
      SquashSpacesIdentity(SquashNewlines(t));
      SquashNewlinesIdentity(t);
    }
  }

  /** The first loop skips a cue whose stripped text is empty or a non-speech marker. */
  predicate Silent(text: string) {
    Strip(text) == [] || IsMarker(Strip(text))
  }

  /** One cue text as the first loop keeps it, or `None` when the loop skips it. */
  function CleanLine(text: string): (r: Option<string>)
    ensures r.None? <==> Silent(text)
    ensures r.Some? ==> |r.value| <= |text|
  {
    var t := Strip(text);
    if t == [] || IsMarker(t) then None
    else Some(SquashSpaces(SquashNewlines(t)))
  }

  /** A blank cue keeps no line. */
  lemma BlankLineIsDropped()
    ensures CleanLine("") == None
  {
    assert Strip("") == [];
  }

  /** The first loop over the cue texts: the cleaned lines, in cue order. */
  function CleanLines(texts: seq<string>): (r: seq<string>)
    ensures |r| <= |texts|
  {
    if texts == [] then []
    else
      var init := CleanLines(texts[..|texts| - 1]);
      match CleanLine(texts[|texts| - 1])
      case None => init
      case Some(line) => init + [line]
  }

  /**
   * A kept line is tidy: stripped, and every whitespace run inside it is one
   * plain space; it keeps every character of the cue text that is not
   * whitespace, in order; and it is the stripped text's words joined by
   * single spaces.
   */
  lemma CleanLineTidy(text: string)
    ensures CleanLine(text).Some? ==> Tidy(CleanLine(text).value)
    ensures CleanLine(text).Some? ==> Filter(CleanLine(text).value, Visible) == Filter(text, Visible)
    ensures CleanLine(text).Some? ==> CleanLine(text).value == JoinWith(SplitRuns(Strip(text), IsSpace), " ")
  {
    if CleanLine(text).Some? {
      SquashedIsTidy(Strip(text));
      CleanKeepsText(text);
      NewlineSquashIsRedundant(Strip(text));
      SquashSpacesJoins(Strip(text));
    }
  }

  /** Squashing a text with no whitespace at either end gives a tidy line. */
  lemma SquashedIsTidy(t: string)
    requires Trimmed(t)
    ensures Tidy(SquashSpaces(SquashNewlines(t)))
  {
    var u := SquashNewlines(t);
    SquashSpacesSpaced(u);
    SquashSpacesFirst(u);
    SquashSpacesLast(u);
  }

  /** Stripping and squashing keep every character that is not whitespace, in order. */
  lemma CleanKeepsText(text: string)
    ensures Filter(SquashSpaces(SquashNewlines(Strip(text))), Visible) == Filter(text, Visible)
  {
    StripKeepsText(text);
    BreaksAreInvisible();
    SquashNewlinesKeeps(Strip(text), Visible);
    SquashSpacesKeeps(SquashNewlines(Strip(text)));
  }

  lemma BreaksAreInvisible()
    ensures !Visible('\n') && !Visible(' ')
  {
    assert IsSpace('\n') && IsSpace(' ');
  }

  /** Every kept line is tidy. */
  lemma {:induction false} CleanLinesTidy(texts: seq<string>)
    ensures forall k :: 0 <= k < |CleanLines(texts)| ==> Tidy(CleanLines(texts)[k])
  {
    if texts != [] {
      var init := texts[..|texts| - 1];
      var last := texts[|texts| - 1];
      CleanLinesTidy(init);
      CleanLineTidy(last);
    }
  }

  /** No kept line is a non-speech marker, even after its whitespace was squashed. */
  lemma {:induction false} CleanLinesHaveNoMarker(texts: seq<string>)
    ensures forall k :: 0 <= k < |CleanLines(texts)| ==> !IsMarker(CleanLines(texts)[k])
  {
    if texts != [] {
      var init := texts[..|texts| - 1];
      var last := texts[|texts| - 1];
      CleanLinesHaveNoMarker(init);
      match CleanLine(last)
      case None =>
      case Some(line) =>
        SquashedIsNoMarker(Strip(last));
        assert CleanLines(texts) == CleanLines(init) + [line];
    }
  }

  /** A property holds of every element exactly when it holds of every element but the last and of the last one. */
  lemma AllSplit<T>(xs: seq<T>, init: seq<T>, P: T -> bool)
    requires xs != [] && init == xs[..|xs| - 1]
    ensures (forall i :: 0 <= i < |xs| ==> P(xs[i])) <==> (forall i :: 0 <= i < |init| ==> P(init[i])) && P(xs[|xs| - 1])
  {
    assert forall i :: 0 <= i < |init| ==> init[i] == xs[i];
  }

  /** No line survives exactly when every cue text is blank or a non-speech marker. */
  lemma {:induction false} CleanLinesEmpty(texts: seq<string>)
    ensures CleanLines(texts) == [] <==> forall i :: 0 <= i < |texts| ==> Silent(texts[i])
  {
    if texts != [] {
      var init := texts[..|texts| - 1];
      var last := texts[|texts| - 1];
      CleanLinesEmpty(init);
      AllSplit(texts, init, Silent);
      assert CleanLines(texts) == if CleanLine(last).Some? then CleanLines(init) + [CleanLine(last).value] else CleanLines(init);
    }
  }

  /** `re.split(r'[.!?]\s+', …)` cuts at `i`: a terminator followed by whitespace. */
  predicate BreakAt(s: string, i: nat) {
    i + 1 < |s| && IsTerminator(s[i]) && IsSpace(s[i + 1])
  }

  /** The leftmost cut at or after `from`. */
  function FirstBreak(s: string, from: nat): (r: Option<nat>)
    requires from <= |s|
    ensures r.Some? ==> from <= r.value && BreakAt(s, r.value)
    ensures forall i: nat :: from <= i && (r.None? || i < r.value) ==> !BreakAt(s, i)
    decreases |s| - from
  {
    if BreakAt(s, from) then Some(from)
    else if from == |s| then None
    else FirstBreak(s, from + 1)
  }

  /**
   * `re.split(r'[.!?]\s+', s)`: the pieces between the leftmost,
   * non-overlapping matches; a match is a terminator and the whole whitespace
   * run after it, and both are dropped.
   */
  function SplitSentences(s: string): (r: seq<string>)
    ensures |r| >= 1
    decreases |s|
  {
    match FirstBreak(s, 0)
    case None => [s]
    case Some(i) => [s[..i]] + SplitSentences(TrimStart(s[i + 1..]))
  }

  /** A text is left whole exactly when it holds no cut. */
  lemma SplitSentencesWhole(s: string)
    ensures NoCut(s) <==> SplitSentences(s) == [s]
  {
    match FirstBreak(s, 0)
    case None =>
    case Some(i) =>
      assert |SplitSentences(s)| == 1 + |SplitSentences(TrimStart(s[i + 1..]))|;
  }

  /** `t` holds no cut. */
  ghost predicate NoCut(t: string) {
    forall j: nat :: !BreakAt(t, j)
  }

  /** The piece before the leftmost cut holds no cut. */
  lemma HeadHasNoCut(s: string, i: nat)
    requires FirstBreak(s, 0) == Some(i)
    ensures NoCut(s[..i])
  {
    forall j: nat ensures !BreakAt(s[..i], j) {
      if BreakAt(s[..i], j) {
        assert BreakAt(s, j);
      }
    }
  }

  /** Putting a piece without a cut in front of pieces without one keeps every piece free of cuts. */
  lemma NoCutCons(head: string, tail: seq<string>)
    requires NoCut(head) && forall k :: 0 <= k < |tail| ==> NoCut(tail[k])
    ensures forall k :: 0 <= k < |[head] + tail| ==> NoCut(([head] + tail)[k])
  {
    var r := [head] + tail;
    forall k | 0 <= k < |r| ensures NoCut(r[k]) {
      if k > 0 {
        assert r[k] == tail[k - 1];
      }
    }
  }

  /** No piece holds a cut. */
  lemma {:induction false} SplitSentencesCutFree(s: string)
    ensures forall k :: 0 <= k < |SplitSentences(s)| ==> NoCut(SplitSentences(s)[k])
    decreases |s|
  {
    match FirstBreak(s, 0)
    case None =>
    case Some(i) =>
      var rest := TrimStart(s[i + 1..]);
      HeadHasNoCut(s, i);
      SplitSentencesCutFree(rest);
      NoCutCons(s[..i], SplitSentences(rest));
      assert SplitSentences(s) == [s[..i]] + SplitSentences(rest);
  }

  /** What `re.split` drops at a cut: a terminator and the whole whitespace run after it. */
  predicate IsGap(g: string) {
    |g| >= 2 && IsTerminator(g[0]) && forall k :: 1 <= k < |g| ==> IsSpace(g[k])
  }

  /** The text dropped at each cut of `SplitSentences(s)`, in order. */
  function Gaps(s: string): seq<string>
    decreases |s|
  {
    match FirstBreak(s, 0)
    case None => []
    case Some(i) =>
      var rest := TrimStart(s[i + 1..]);
      [s[i..|s| - |rest|]] + Gaps(rest)
  }

  /** `pieces[0] + gaps[0] + pieces[1] + gaps[1] + …`: the text the pieces spell with the gaps put back. */
  function Interleave(pieces: seq<string>, gaps: seq<string>): string
    requires |pieces| == |gaps| + 1
    decreases |gaps|
  {
    if gaps == [] then pieces[0] else pieces[0] + gaps[0] + Interleave(pieces[1..], gaps[1..])
  }

  lemma InterleaveCons(p: string, g: string, pieces: seq<string>, gaps: seq<string>)
    requires |pieces| == |gaps| + 1
    ensures Interleave([p] + pieces, [g] + gaps) == p + g + Interleave(pieces, gaps)
  {
    assert ([p] + pieces)[1..] == pieces;
    assert ([g] + gaps)[1..] == gaps;
  }

  /** A cut at `i` splits the text into the part before it, a gap, and what follows the gap's whitespace run. */
  lemma CutParts(s: string, i: nat)
    requires BreakAt(s, i)
    ensures var rest := TrimStart(s[i + 1..]);
      && i + 2 <= |s| - |rest|
      && IsGap(s[i..|s| - |rest|])
      && s[..i] + s[i..|s| - |rest|] + rest == s
  {
    GapParts(s, i, s[i + 1..], TrimStart(s[i + 1..]));
  }

  /** `rest` is what follows the whitespace at the start of `t`, the text after a terminator at `i`. */
  lemma GapParts(s: string, i: nat, t: string, rest: string)
    requires i < |s| && IsTerminator(s[i]) && t == s[i + 1..]
    requires t != [] && IsSpace(t[0])
    requires |rest| <= |t| && rest == t[|t| - |rest|..]
    requires forall k :: 0 <= k < |t| - |rest| ==> IsSpace(t[k])
    requires rest != [] ==> !IsSpace(rest[0])
    ensures i + 2 <= |s| - |rest|
    ensures IsGap(s[i..|s| - |rest|])
    ensures s[..i] + s[i..|s| - |rest|] + rest == s
  {
    var g := s[i..|s| - |rest|];
    assert rest == s[|s| - |rest|..];
    assert forall k :: 1 <= k < |g| ==> g[k] == t[k - 1];
  }

  /** A property of every element survives putting one more element that has it in front. */
  lemma AllCons<T>(x: T, xs: seq<T>, P: T -> bool)
    requires P(x) && forall k :: 0 <= k < |xs| ==> P(xs[k])
    ensures forall k :: 0 <= k < |[x] + xs| ==> P(([x] + xs)[k])
  {
    assert forall k :: 1 <= k < |[x] + xs| ==> ([x] + xs)[k] == xs[k - 1];
  }

  /** The pieces, with the dropped gaps put back between them, spell the text again. */
  lemma {:induction false} SplitSentencesRejoin(s: string)
    ensures |Gaps(s)| == |SplitSentences(s)| - 1
    ensures Interleave(SplitSentences(s), Gaps(s)) == s
    ensures forall k :: 0 <= k < |Gaps(s)| ==> IsGap(Gaps(s)[k])
    decreases |s|
  {
    match FirstBreak(s, 0)
    case None =>
    case Some(i) =>
      var rest := TrimStart(s[i + 1..]);
      var g := s[i..|s| - |rest|];
      CutParts(s, i);
      SplitSentencesRejoin(rest);
      assert SplitSentences(s) == [s[..i]] + SplitSentences(rest);
      assert Gaps(s) == [g] + Gaps(rest);
      InterleaveCons(s[..i], g, SplitSentences(rest), Gaps(rest));
      AllCons(g, Gaps(rest), IsGap);
  }

  /** Empty, or starting with a character that is not whitespace. */
  predicate StartsClean(p: string) {
    p == [] || !IsSpace(p[0])
  }

  /** The first piece is the text up to the first cut. */
  lemma SplitSentencesHead(s: string)
    ensures |SplitSentences(s)[0]| <= |s| && SplitSentences(s)[0] == s[..|SplitSentences(s)[0]|]
  {
  }

  /** Every piece after a cut starts after the whole whitespace run of its gap. */
  lemma {:induction false} SplitSentencesStarts(s: string)
    ensures forall k :: 1 <= k < |SplitSentences(s)| ==> StartsClean(SplitSentences(s)[k])
    decreases |s|
  {
    match FirstBreak(s, 0)
    case None =>
    case Some(i) =>
      var rest := TrimStart(s[i + 1..]);
      SplitSentencesStarts(rest);
      FirstPieceStartsClean(rest);
      StartsCleanAfterHead(s[..i], SplitSentences(rest));
      assert SplitSentences(s) == [s[..i]] + SplitSentences(rest);
  }

  /** A text that starts clean has a first piece that starts clean. */
  lemma FirstPieceStartsClean(s: string)
    requires StartsClean(s)
    ensures StartsClean(SplitSentences(s)[0])
  {
    SplitSentencesHead(s);
  }

  /** Putting a piece in front of pieces that all start clean leaves every piece but the first starting clean. */
  lemma StartsCleanAfterHead(p: string, tail: seq<string>)
    requires tail != [] ==> StartsClean(tail[0])
    requires forall k :: 1 <= k < |tail| ==> StartsClean(tail[k])
    ensures forall k :: 1 <= k < |[p] + tail| ==> StartsClean(([p] + tail)[k])
  {
    var r := [p] + tail;
    forall k | 1 <= k < |r|
      ensures StartsClean(r[k])
    {
      assert r[k] == tail[k - 1];
    }
  }

  /**
   * `re.split(r'[.!?]\s+', s)` cuts the text into pieces and gaps: the pieces
   * with the gaps put back between them spell the text, every gap is a
   * terminator and a whole whitespace run, no piece holds a cut, and every
   * piece after the first starts where its gap's whitespace run ends.
   */
  lemma SplitSentencesPieces(s: string)
    ensures |Gaps(s)| == |SplitSentences(s)| - 1
    ensures Interleave(SplitSentences(s), Gaps(s)) == s
    ensures forall k :: 0 <= k < |Gaps(s)| ==> IsGap(Gaps(s)[k])
    ensures forall k :: 0 <= k < |SplitSentences(s)| ==> NoCut(SplitSentences(s)[k])
    ensures forall k :: 1 <= k < |SplitSentences(s)| ==> StartsClean(SplitSentences(s)[k])
  {
    SplitSentencesRejoin(s);
    SplitSentencesCutFree(s);
    SplitSentencesStarts(s);
  }

  /** Each piece keeps its characters: a character absent from the text is absent from every piece. */
  lemma {:induction false} SplitSentencesAvoids(s: string, c: char)
    requires c !in s
    ensures forall k :: 0 <= k < |SplitSentences(s)| ==> c !in SplitSentences(s)[k]
    decreases |s|
  {
    match FirstBreak(s, 0)
    case None =>
    case Some(i) =>
      var rest := TrimStart(s[i + 1..]);
      CutAvoids(s, i, c);
      SplitSentencesAvoids(rest, c);
      AvoidsCons(s[..i], SplitSentences(rest), c);
      assert SplitSentences(s) == [s[..i]] + SplitSentences(rest);
  }

  /** Both sides of a cut hold no character that the text does not. */
  lemma CutAvoids(s: string, i: nat, c: char)
    requires c !in s && i < |s|
    ensures c !in s[..i] && c !in TrimStart(s[i + 1..])
  {
    assert forall j :: i + 1 <= j < |s| ==> s[j] == s[i + 1..][j - i - 1];
    TrimStartAvoids(s[i + 1..], c);
  }

  /** Putting a piece without `c` in front of pieces without `c` keeps every piece free of it. */
  lemma AvoidsCons(head: string, tail: seq<string>, c: char)
    requires c !in head && forall k :: 0 <= k < |tail| ==> c !in tail[k]
    ensures forall k :: 0 <= k < |[head] + tail| ==> c !in ([head] + tail)[k]
  {
    var r := [head] + tail;
    forall k | 0 <= k < |r| ensures c !in r[k] {
      if k > 0 {
        assert r[k] == tail[k - 1];
      }
    }
  }

  /** A finished sentence: longer than three characters and ending in a terminator. */
  predicate Finished(sentence: string) {
    |sentence| > 3 && IsTerminator(sentence[|sentence| - 1])
  }

  /** The second loop's body on one piece: strip, keep if longer than three characters, end it with a terminator. */
  function FinishSentence(piece: string): (r: Option<string>)
    ensures r.None? <==> |Strip(piece)| <= 3
    ensures r.Some? ==> Finished(r.value)
    ensures r.Some? ==> !IsSpace(r.value[0])
    ensures r.Some? && IsTerminator(Strip(piece)[|Strip(piece)| - 1]) ==> r.value == Strip(piece)
    ensures r.Some? && !IsTerminator(Strip(piece)[|Strip(piece)| - 1]) ==> r.value == Strip(piece) + "."
  {
    var t := Strip(piece);
    if |t| > 3 then Some(if IsTerminator(t[|t| - 1]) then t else t + ".") else None
  }

  /** The second loop over the pieces: the finished sentences, in order. */
  function FinishSentences(pieces: seq<string>): (r: seq<string>)
    ensures |r| <= |pieces|
    ensures forall k :: 0 <= k < |r| ==> Finished(r[k])
  {
    if pieces == [] then []
    else
      var init := FinishSentences(pieces[..|pieces| - 1]);
      match FinishSentence(pieces[|pieces| - 1])
      case None => init
      case Some(sentence) => init + [sentence]
  }

  /** The second loop, one piece further. */
  lemma FinishSentencesStep(init: seq<string>, p: string)
    ensures FinishSentences(init + [p]) == FinishSentences(init) + (if FinishSentence(p).Some? then [FinishSentence(p).value] else [])
  {
    assert (init + [p])[..|init|] == init;
  }

  /** A piece too short to become a sentence once stripped. */
  predicate Short(piece: string) {
    |Strip(piece)| <= 3
  }

  /** No sentence survives exactly when every piece is at most three characters long once stripped. */
  lemma {:induction false} FinishSentencesEmpty(pieces: seq<string>)
    ensures FinishSentences(pieces) == [] <==> forall i :: 0 <= i < |pieces| ==> Short(pieces[i])
  {
    if pieces != [] {
      var init := pieces[..|pieces| - 1];
      var last := pieces[|pieces| - 1];
      FinishSentencesEmpty(init);
      AllSplit(pieces, init, Short);
      assert FinishSentences(pieces) ==
        if FinishSentence(last).Some? then FinishSentences(init) + [FinishSentence(last).value] else FinishSentences(init);
    }
  }

  /** A character other than `.` that no piece holds is in no sentence. */
  lemma {:induction false} FinishSentencesAvoid(pieces: seq<string>, c: char)
    requires c != '.'
    requires forall i :: 0 <= i < |pieces| ==> c !in pieces[i]
    ensures forall k :: 0 <= k < |FinishSentences(pieces)| ==> c !in FinishSentences(pieces)[k]
  {
    if pieces != [] {
      var init, last := pieces[..|pieces| - 1], pieces[|pieces| - 1];
      assert pieces == init + [last];
      FinishSentencesAvoid(init, c);
      FinishSentencesStep(init, last);
      FinishSentenceAvoids(last, c);
    }
  }

  lemma FinishSentenceAvoids(piece: string, c: char)
    requires c != '.' && c !in piece
    ensures FinishSentence(piece).Some? ==> c !in FinishSentence(piece).value
  {
    StripAvoids(piece, c);
  }

  /** The sentences `format_transcript` produces from the cue texts. */
  function Sentences(texts: seq<string>): seq<string> {
    FinishSentences(SplitSentences(JoinWith(CleanLines(texts), " ")))
  }

  /** `formatted_text`: the sentences, one paragraph each. */
  function Normalize(texts: seq<string>): string {
    JoinWith(Sentences(texts), "\n\n")
  }

  /**
   * Every sentence is longer than three characters, ends in `.`, `!` or `?`,
   * and holds no newline: whitespace inside a cue was squashed to plain spaces.
   */
  lemma SentencesShape(texts: seq<string>)
    ensures forall k :: 0 <= k < |Sentences(texts)| ==> |Sentences(texts)[k]| > 3
    ensures forall k :: 0 <= k < |Sentences(texts)| ==> IsTerminator(Sentences(texts)[k][|Sentences(texts)[k]| - 1])
    ensures forall k :: 0 <= k < |Sentences(texts)| ==> '\n' !in Sentences(texts)[k]
  {
    var lines := CleanLines(texts);
    CleanLinesTidy(texts);
    forall i | 0 <= i < |lines| ensures '\n' !in lines[i] {
      assert IsSpace('\n');
    }
    JoinWithAvoids(lines, " ", '\n');
    var joined := JoinWith(lines, " ");
    SplitSentencesAvoids(joined, '\n');
    FinishSentencesAvoid(SplitSentences(joined), '\n');
  }

  /** A join whose first part is non-empty is non-empty. */
  lemma JoinWithNonEmpty(parts: seq<string>, sep: string)
    requires parts != [] && parts[0] != []
    ensures JoinWith(parts, sep) != []
  {
    if |parts| > 1 {
      assert JoinWith(parts, sep)[0] == parts[0][0];
    }
  }

  /** The formatted text is empty exactly when no sentence survives, and otherwise splits back into its sentences at blank lines. */
  lemma NormalizeSplitsIntoSentences(texts: seq<string>)
    ensures Normalize(texts) == [] <==> Sentences(texts) == []
    ensures Sentences(texts) != [] ==> SplitOn(Normalize(texts), "\n\n") == Sentences(texts)
  {
    var r := Sentences(texts);
    if r != [] {
      JoinWithNonEmpty(r, "\n\n");
      SentencesShape(texts);
      SplitOnJoinWith(r, "\n\n");
    }
  }

  /** Cues that are blank or non-speech markers give no text at all. */
  lemma SilentCuesGiveNothing(texts: seq<string>)
    requires forall i :: 0 <= i < |texts| ==> Silent(texts[i])
    ensures Normalize(texts) == []
  {
    CleanLinesEmpty(texts);
    assert JoinWith([], " ") == [];
    assert SplitSentences([]) == [[]];
    assert FinishSentences([[]]) == [];
  }

  /** One more cue adds its line, if it keeps one, after the lines of the cues before it. */
  lemma CleanLinesStep(init: seq<string>, t: string)
    ensures CleanLines(init + [t]) == CleanLines(init) + (if CleanLine(t).Some? then [CleanLine(t).value] else [])
  {
    assert (init + [t])[..|init|] == init;
  }

  /**
   * The loop bodies work cue by cue: cleaning a concatenation cleans each
   * part.
   */
  lemma {:induction false} CleanLinesAppend(a: seq<string>, b: seq<string>)
    ensures CleanLines(a + b) == CleanLines(a) + CleanLines(b)
    decreases |b|
  {
    if b != [] {
      var b', t := b[..|b| - 1], b[|b| - 1];
      assert a + b == (a + b') + [t];
      assert b == b' + [t];
      CleanLinesAppend(a, b');
      CleanLinesSnoc(a + b', t);
      CleanLinesSnoc(b', t);
      var la, lb', lt := CleanLines(a), CleanLines(b'), CleanLines([t]);
      assert (la + lb') + lt == la + (lb' + lt);
    } else {
      assert a + b == a;
    }
  }

  /** Cleaning one more cue text appends what cleaning that text alone gives. */
  lemma CleanLinesSnoc(init: seq<string>, t: string)
    ensures CleanLines(init + [t]) == CleanLines(init) + CleanLines([t])
  {
    CleanLinesStep(init, t);
    CleanLinesStep([], t);
    assert [] + [t] == [t];
  }


  // ---------------------------------------------------------------------
  // The plain formatter of api/extract.py

  /** `entry.get('text', '').strip()` for each cue, keeping the non-empty ones. */
  function KeptTexts(entries: seq<Entry>): (r: seq<string>)
    ensures |r| <= |entries|
    ensures forall k :: 0 <= k < |r| ==> Trimmed(r[k])
  {
    if entries == [] then []
    else
      var init := KeptTexts(entries[..|entries| - 1]);
      var t := Strip(entries[|entries| - 1].text.GetOr(""));
      if t == [] then init else init + [t]
  }

  /** A cue the plain formatter drops: blank, or without text. */
  predicate BlankEntry(e: Entry) {
    Strip(e.text.GetOr("")) == []
  }

  /** No text is kept exactly when every cue is blank or has no text. */
  lemma {:induction false} KeptTextsEmpty(entries: seq<Entry>)
    ensures KeptTexts(entries) == [] <==> forall i :: 0 <= i < |entries| ==> BlankEntry(entries[i])
  {
    if entries != [] {
      var init := entries[..|entries| - 1];
      var t := Strip(entries[|entries| - 1].text.GetOr(""));
      KeptTextsEmpty(init);
      AllSplit(entries, init, BlankEntry);
      assert KeptTexts(entries) == if t == [] then KeptTexts(init) else KeptTexts(init) + [t];
    }
  }

  /** `' '.join(texts)`: the plain formatter's text. */
  function SimpleFormat(entries: seq<Entry>): string {
    JoinWith(KeptTexts(entries), " ")
  }

  /** A join of parts without whitespace at their ends has none at its own ends. */
  lemma {:induction false} JoinTrimmed(parts: seq<string>)
    requires forall k :: 0 <= k < |parts| ==> Trimmed(parts[k])
    ensures var r := JoinWith(parts, " "); r != [] ==> Trimmed(r)
    ensures parts != [] ==> JoinWith(parts, " ") != []
  {
    if |parts| > 1 {
      JoinTrimmed(parts[1..]);
      var rest := JoinWith(parts[1..], " ");
      assert JoinWith(parts, " ") == parts[0] + " " + rest;
    }
  }

  /** The plain text is empty exactly when every cue is blank or has no text, and it never starts or ends with whitespace. */
  lemma SimpleFormatShape(entries: seq<Entry>)
    ensures SimpleFormat(entries) == [] <==> forall i :: 0 <= i < |entries| ==> BlankEntry(entries[i])
    ensures var r := SimpleFormat(entries); r != [] ==> !IsSpace(r[0]) && !IsSpace(r[|r| - 1])
  {
    KeptTextsEmpty(entries);
    JoinTrimmed(KeptTexts(entries));
  }
}
