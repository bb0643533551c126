/**
 * `format_transcript` on concrete cue lists: a single cue gets its full
 * stop, and a blank cue between two cues vanishes without cutting the text.
 */
module NormalizerExamples {
  import opened Wrappers
  import opened Text
  import opened Normalizer

  /** A cue text that the first loop keeps as it is and that holds no terminator. */
  predicate Plain(t: string) {
    && t != [] && !IsSpace(t[0]) && !IsSpace(t[|t| - 1])
    && (forall i :: 0 <= i < |t| ==> t[i] != '\n' && !IsTerminator(t[i]))
    && Spaced(t) && !IsMarker(t)
  }

  /** A plain text is one line and one piece. */
  lemma PlainText(t: string)
    requires Plain(t)
    ensures CleanLine(t) == Some(t)
    ensures SplitSentences(t) == [t]
  {
    SquashNewlinesIdentity(t);
    SquashSpacesIdentity(t);
  }

  /** A piece longer than three characters that ends without a terminator gets a full stop. */
  lemma OnePiece(t: string)
    requires |t| > 3 && !IsSpace(t[0]) && !IsSpace(t[|t| - 1]) && !IsTerminator(t[|t| - 1])
    ensures FinishSentences([t]) == [t + "."]
  {
    assert [t][..0] == [];
  }

  /** A single plain cue longer than three characters becomes one sentence with a full stop. */
  lemma SinglePlainCue(t: string)
    requires Plain(t) && |t| > 3
    ensures Normalize([t]) == t + "."
  {
    PlainText(t);
    assert CleanLines([t]) == [t] by {
      assert [t][..0] == [];
    }
    OnePiece(t);
  }

  /** A blank cue between two cues that are kept as they are leaves the two lines. */
  lemma BlankCueIsSkipped(a: string, b: string)
    requires CleanLine(a) == Some(a) && CleanLine(b) == Some(b)
    ensures CleanLines([a, "", b]) == [a, b]
  {
    BlankLineIsDropped();
    CleanLinesStep([], a);
    CleanLinesStep([a], "");
    CleanLinesStep([a, ""], b);
    assert [] + [a] == [a] && [a] + [""] == [a, ""] && [a, ""] + [b] == [a, "", b];
  }

  /** Two plain texts joined by a space hold no cut. */
  lemma PlainJoinIsOnePiece(a: string, b: string)
    requires Plain(a) && Plain(b)
    ensures SplitSentences(a + " " + b) == [a + " " + b]
  {
    var joined := a + " " + b;
    forall i: nat ensures !BreakAt(joined, i) {
      if i < |joined| {
        if i < |a| {
          assert joined[i] == a[i];
        } else if i > |a| {
          assert joined[i] == b[i - |a| - 1];
        }
      }
    }
    SplitSentencesWhole(joined);
  }

  /** A single sentence is the whole formatted text. */
  lemma OneSentenceText(texts: seq<string>, sentence: string)
    requires Sentences(texts) == [sentence]
    ensures Normalize(texts) == sentence
  {
  }

  /**
   * Cues are joined with a space before the text is cut at sentence ends, so
   * a blank cue between two plain cues does not end a sentence.
   */
  lemma BlankBetweenPlainCues(a: string, b: string)
    requires Plain(a) && Plain(b) && |a| + |b| > 2
    ensures Normalize([a, "", b]) == a + " " + b + "."
  {
    BlankCueJoined(a, b);
    PlainJoinIsOnePiece(a, b);
    PlainJoinEnds(a, b);
    OnePiece(a + " " + b);
    SentencesFromPieces([a, "", b], [a + " " + b], [a + " " + b + "."]);
    OneSentenceText([a, "", b], a + " " + b + ".");
  }

  /** The lines of two plain cues around a blank one, joined. */
  lemma BlankCueJoined(a: string, b: string)
    requires Plain(a) && Plain(b)
    ensures JoinWith(CleanLines([a, "", b]), " ") == a + " " + b
  {
    PlainText(a);
    PlainText(b);
    BlankCueIsSkipped(a, b);
    assert JoinWith([a, b], " ") == a + " " + b;
  }

  /** Two plain texts joined by a space end as they do. */
  lemma PlainJoinEnds(a: string, b: string)
    requires Plain(a) && Plain(b)
    ensures var j := a + " " + b; !IsSpace(j[0]) && !IsSpace(j[|j| - 1]) && !IsTerminator(j[|j| - 1])
  {
    var j := a + " " + b;
    assert j[0] == a[0] && j[|j| - 1] == b[|b| - 1];
  }

  /** A short cue without punctuation or markers is plain. */
  lemma ExampleCueIsPlain()
    ensures Plain("This is a test")
  {
    var t := "This is a test";
    assert forall i :: 0 <= i < |t| ==> t[i] != '\n' && !IsTerminator(t[i]);
    assert forall i :: 0 <= i < |t| && IsSpace(t[i]) ==> t[i] == ' ';
    assert forall i :: 0 <= i < |t| - 1 ==> !DoubleSpaceAt(t, i);
    ListedIsIn(t, NonSpeechMarkers);
  }

  /** A single cue without punctuation becomes one sentence with a full stop. */
  lemma SingleCueGetsFullStop()
    ensures Normalize(["This is a test"]) == "This is a test."
  {
    ExampleCueIsPlain();
    SinglePlainCue("This is a test");
  }

  /** The two cues around the blank one. */
  lemma GreetingCuesArePlain()
    ensures Plain("Hello world") && Plain("Goodbye")
  {
    HelloWorldIsPlain();
    GoodbyeIsPlain();
  }

  /** The first greeting cue is plain. */
  lemma HelloWorldIsPlain()
    ensures Plain("Hello world")
  {
    var a := "Hello world";
    assert forall i :: 0 <= i < |a| ==> a[i] != '\n' && !IsTerminator(a[i]);
    assert forall i :: 0 <= i < |a| && IsSpace(a[i]) ==> a[i] == ' ';
    assert forall i :: 0 <= i < |a| - 1 ==> !DoubleSpaceAt(a, i);
    ListedIsIn(a, NonSpeechMarkers);
  }

  /** The last greeting cue is plain. */
  lemma GoodbyeIsPlain()
    ensures Plain("Goodbye")
  {
    var b := "Goodbye";
    assert forall i :: 0 <= i < |b| ==> b[i] != '\n' && !IsTerminator(b[i]) && !IsSpace(b[i]);
    ListedIsIn(b, NonSpeechMarkers);
  }

  /** The two cues joined by a space, with a full stop. */
  lemma GreetingJoined()
    ensures "Hello world" + " " + "Goodbye" + "." == "Hello world Goodbye."
  {
  }

  /** `"Hello world"`, a blank cue and `"Goodbye"` give one sentence, not two. */
  lemma BlankCueDoesNotSplit()
    ensures Normalize(["Hello world", "", "Goodbye"]) == "Hello world Goodbye."
  {
    GreetingCuesArePlain();
    BlankBetweenPlainCues("Hello world", "Goodbye");
    GreetingJoined();
  }

  // ---------------------------------------------------------------------
  // Normalising twice

  /** A run of characters that are neither whitespace nor terminators. */
  predicate Word(t: string) {
    t != [] && forall i :: 0 <= i < |t| ==> !IsSpace(t[i]) && !IsTerminator(t[i])
  }

  /** The squash keeps a first character that is not whitespace. */
  lemma SquashKeepsFirst(x: string, z: string)
    requires x != [] && !IsSpace(x[0])
    ensures SquashSpaces(x + z) == [x[0]] + SquashSpaces(x[1..] + z)
  {
    var xz := x + z;
    assert xz[0] == x[0] && xz[1..] == x[1..] + z;
  }

  /** A prefix without whitespace passes through the whitespace squash unchanged. */
  lemma {:induction false} SquashKeepsUnspacedPrefix(x: string, z: string)
    requires forall i :: 0 <= i < |x| ==> !IsSpace(x[i])
    ensures SquashSpaces(x + z) == x + SquashSpaces(z)
    decreases |x|
  {
    if x != [] {
      SquashKeepsFirst(x, z);
      SquashKeepsUnspacedPrefix(x[1..], z);
      assert [x[0]] + (x[1..] + SquashSpaces(z)) == ([x[0]] + x[1..]) + SquashSpaces(z);
      assert [x[0]] + x[1..] == x;
    } else {
      assert x + z == z;
    }
  }

  /** A text with no whitespace is its own squash. */
  lemma UnspacedIsSquashed(y: string)
    requires forall i :: 0 <= i < |y| ==> !IsSpace(y[i])
    ensures SquashSpaces(y) == y
  {
    SquashKeepsUnspacedPrefix(y, []);
    assert y + [] == y;
  }

  /** A leading whitespace character becomes a space and the rest of its run is skipped. */
  lemma SquashLeadingSpace(c: char, x: string)
    requires IsSpace(c)
    ensures SquashSpaces([c] + x) == " " + SquashSpaces(TrimStart(x))
  {
    var cx := [c] + x;
    assert cx[0] == c && cx[1..] == x;
  }

  /** A word is its own squash and what stripping its start leaves. */
  lemma UnspacedWord(y: string)
    requires y != [] && forall i :: 0 <= i < |y| ==> !IsSpace(y[i])
    ensures TrimStart(y) == y && SquashSpaces(y) == y
  {
    UnspacedIsSquashed(y);
  }

  /** A space in front of a word stays one space. */
  lemma SquashSpaceBeforeWord(y: string)
    requires y != [] && forall i :: 0 <= i < |y| ==> !IsSpace(y[i])
    ensures SquashSpaces(" " + y) == " " + y
  {
    assert IsSpace(' ');
    UnspacedWord(y);
    assert " " + y == [' '] + y;
    SquashLeadingSpace(' ', y);
  }

  /** Two whitespace characters in front of a word become one space. */
  lemma SquashPairBeforeWord(c: char, d: char, y: string)
    requires IsSpace(c) && IsSpace(d)
    requires y != [] && forall i :: 0 <= i < |y| ==> !IsSpace(y[i])
    ensures SquashSpaces([c] + ([d] + y)) == " " + y
  {
    SquashLeadingSpace(c, [d] + y);
    TrimPastSpace(d, y);
    UnspacedWord(y);
  }

  /** Two newlines in front of a word become one space. */
  lemma SquashNewlinesBeforeWord(y: string)
    requires y != [] && forall i :: 0 <= i < |y| ==> !IsSpace(y[i])
    ensures SquashSpaces("\n\n" + y) == " " + y
  {
    NewlineIsSpace();
    SquashPairBeforeWord('\n', '\n', y);
    NewlinePair(y);
  }

  /** A newline is whitespace. */
  lemma NewlineIsSpace()
    ensures IsSpace('\n')
  {
  }

  /** Two newlines in front of `y`, one character at a time. */
  lemma NewlinePair(y: string)
    ensures "\n\n" + y == ['\n'] + (['\n'] + y)
  {
  }

  /** Strings longer than the longest non-speech marker are no marker. */
  lemma LongIsNoMarker(t: string)
    requires |t| > 10
    ensures !IsMarker(t)
  {
    ListedIsIn(t, NonSpeechMarkers);
  }

  /** The leftmost cut of `s` is at `k`. */
  lemma FirstBreakAt(s: string, k: nat)
    requires BreakAt(s, k)
    requires forall i: nat :: i < k ==> !BreakAt(s, i)
    ensures FirstBreak(s, 0) == Some(k)
  {
  }

  /** A text whose only terminator is its last character is one piece. */
  lemma FinalTerminatorOnly(y: string)
    requires forall i :: 0 <= i < |y| - 1 ==> !IsTerminator(y[i])
    ensures SplitSentences(y) == [y]
  {
    forall i: nat ensures !BreakAt(y, i) {
    }
    SplitSentencesWhole(y);
  }

  /** In `a + " " + y`, where `a` ends in its first terminator that is followed by whitespace, the leftmost cut is the end of `a`. */
  lemma CutAtEndOf(a: string, y: string)
    requires |a| >= 2 && IsTerminator(a[|a| - 1]) && !IsSpace(a[|a| - 1])
    requires forall i :: 0 <= i < |a| - 2 ==> !IsTerminator(a[i]) || !IsSpace(a[i + 1])
    ensures FirstBreak(a + " " + y, 0) == Some(|a| - 1)
  {
    var s := a + " " + y;
    var k := |a| - 1;
    assert s[k] == a[k] && s[k + 1] == ' ';
    assert IsSpace(' ');
    forall i: nat | i < k ensures !BreakAt(s, i) {
      assert s[i] == a[i] && s[i + 1] == a[i + 1];
    }
    FirstBreakAt(s, k);
  }

  /** The split at the leftmost cut. */
  lemma SplitAtFirstBreak(s: string, k: nat)
    requires FirstBreak(s, 0) == Some(k)
    ensures SplitSentences(s) == [s[..k]] + SplitSentences(TrimStart(s[k + 1..]))
  {
  }

  /** What lies on either side of the space after `a`. */
  lemma AroundSpace(a: string, y: string)
    requires |a| >= 1 && y != [] && !IsSpace(y[0])
    ensures TrimStart((a + " " + y)[|a|..]) == y
    ensures (a + " " + y)[..|a| - 1] == a[..|a| - 1]
  {
    assert (a + " " + y)[|a|..] == [' '] + y;
    assert IsSpace(' ');
    TrimPastSpace(' ', y);
  }

  /** When the leftmost cut of `a + " " + y` ends `a`, the first piece is `a` without its terminator and the rest is the split of `y`. */
  lemma CutAtSpace(a: string, y: string)
    requires |a| >= 1 && y != [] && !IsSpace(y[0])
    requires FirstBreak(a + " " + y, 0) == Some(|a| - 1)
    ensures SplitSentences(a + " " + y) == [a[..|a| - 1]] + SplitSentences(y)
  {
    SplitAtFirstBreak(a + " " + y, |a| - 1);
    AroundSpace(a, y);
  }

  /** `a + " " + y` is cut once, after `a`, and the cut drops the terminator that ends `a`. */
  lemma CutAfter(a: string, y: string)
    requires |a| >= 2 && IsTerminator(a[|a| - 1]) && !IsSpace(a[|a| - 1])
    requires forall i :: 0 <= i < |a| - 2 ==> !IsTerminator(a[i]) || !IsSpace(a[i + 1])
    requires y != [] && !IsSpace(y[0]) && forall i :: 0 <= i < |y| - 1 ==> !IsTerminator(y[i])
    ensures SplitSentences(a + " " + y) == [a[..|a| - 1], y]
  {
    CutAtEndOf(a, y);
    CutAtSpace(a, y);
    FinalTerminatorOnly(y);
    PairOfPieces(a[..|a| - 1], y);
  }

  /** Two pieces, one after the other. */
  lemma PairOfPieces<T>(x: T, y: T)
    ensures [x] + [y] == [x, y]
  {
  }

  /** A single cue that the first loop turns into `line` is the whole joined text. */
  lemma OneCueLine(s: string, line: string)
    requires CleanLine(s) == Some(line)
    ensures JoinWith(CleanLines([s]), " ") == line
  {
    assert [s][..0] == [];
    assert CleanLines([s]) == [line];
  }

  /** Two pieces that both become sentences. */
  lemma TwoSentences(a: string, b: string, fa: string, fb: string)
    requires FinishSentence(a) == Some(fa) && FinishSentence(b) == Some(fb)
    ensures FinishSentences([a, b]) == [fa, fb]
  {
    assert [a, b][..1] == [a] && [a][..0] == [];
  }

  /** A first piece dropped and a second that becomes a sentence. */
  lemma SecondSentenceOnly(a: string, b: string, fb: string)
    requires FinishSentence(a) == None && FinishSentence(b) == Some(fb)
    ensures FinishSentences([a, b]) == [fb]
  {
    assert [a, b][..1] == [a] && [a][..0] == [];
  }

  /** A stripped line without newlines, already squashed and longer than every marker, is kept as it is. */
  lemma KeptAsIs(s: string)
    requires s != [] && !IsSpace(s[0]) && !IsSpace(s[|s| - 1])
    requires forall i :: 0 <= i < |s| ==> s[i] != '\n'
    requires SquashSpaces(s) == s && |s| > 10
    ensures CleanLine(s) == Some(s)
  {
    SquashNewlinesIdentity(s);
    LongIsNoMarker(s);
  }

  /** The cue `w!! p` holds no newline. */
  lemma FirstCueHasNoNewline(w: string, p: string)
    requires Word(w) && Word(p)
    ensures forall i :: 0 <= i < |w + "!! " + p| ==> (w + "!! " + p)[i] != '\n'
  {
    var s := w + "!! " + p;
    assert IsSpace('\n');
    forall i | 0 <= i < |s| ensures s[i] != '\n' {
      if i < |w| {
        assert s[i] == w[i];
      } else if i >= |w| + 3 {
        assert s[i] == p[i - |w| - 3];
      }
    }
  }

  /** The cue `w!! p` is already squashed. */
  lemma FirstCueIsSquashed(w: string, p: string)
    requires Word(w) && Word(p)
    ensures SquashSpaces(w + "!! " + p) == w + "!! " + p
  {
    var s := w + "!! " + p;
    assert s == (w + "!!") + (" " + p);
    assert forall i :: 0 <= i < |w + "!!"| ==> !IsSpace((w + "!!")[i]);
    SquashKeepsUnspacedPrefix(w + "!!", " " + p);
    SquashSpaceBeforeWord(p);
  }

  /** The cue `w!! p` is kept as it is. */
  lemma FirstPassLine(w: string, p: string)
    requires Word(w) && Word(p) && |w| == 3 && |p| > 4
    ensures CleanLine(w + "!! " + p) == Some(w + "!! " + p)
  {
    var s := w + "!! " + p;
    FirstCueHasNoNewline(w, p);
    FirstCueIsSquashed(w, p);
    assert s[0] == w[0] && s[|s| - 1] == p[|p| - 1];
    KeptAsIs(s);
  }

  /** A piece longer than three characters without whitespace at its ends that ends in a terminator is its own sentence. */
  lemma FinishKeeps(t: string)
    requires |t| > 3 && !IsSpace(t[0]) && !IsSpace(t[|t| - 1]) && IsTerminator(t[|t| - 1])
    ensures FinishSentence(t) == Some(t)
  {
  }

  /** A piece longer than three characters without whitespace at its ends and without a final terminator gets a full stop. */
  lemma FinishAdds(t: string)
    requires |t| > 3 && !IsSpace(t[0]) && !IsSpace(t[|t| - 1]) && !IsTerminator(t[|t| - 1])
    ensures FinishSentence(t) == Some(t + ".")
  {
  }

  /** `w!` is kept as a sentence and `p` gets a full stop. */
  lemma FirstPassFinish(w: string, p: string)
    requires Word(w) && Word(p) && |w| == 3 && |p| > 4
    ensures FinishSentences([w + "!", p]) == [w + "!", p + "."]
  {
    var a := w + "!";
    assert a[0] == w[0] && a[|a| - 1] == '!';
    assert IsTerminator('!') && !IsSpace('!');
    FinishKeeps(a);
    FinishAdds(p);
    TwoSentences(a, p, a, p + ".");
  }

  /** `Sentences` is the finishing of the pieces the cleaned, space-joined lines split into. */
  lemma SentencesFromPieces(texts: seq<string>, pieces: seq<string>, r: seq<string>)
    requires SplitSentences(JoinWith(CleanLines(texts), " ")) == pieces
    requires FinishSentences(pieces) == r
    ensures Sentences(texts) == r
  {
  }

  /** The one cue `w!! p` joins to itself. */
  lemma FirstPassJoin(w: string, p: string)
    requires Word(w) && Word(p) && |w| == 3 && |p| > 4
    ensures JoinWith(CleanLines([w + "!! " + p]), " ") == w + "!! " + p
  {
    FirstPassLine(w, p);
    OneCueLine(w + "!! " + p, w + "!! " + p);
  }

  /** `w!! p` is cut after the second `!`, which the cut removes. */
  lemma FirstPassCut(w: string, p: string)
    requires Word(w) && Word(p) && |w| == 3
    ensures SplitSentences(w + "!! " + p) == [w + "!", p]
  {
    var a := w + "!!";
    assert forall i :: 0 <= i < |a| - 2 ==> a[i] == w[i];
    assert a + " " + p == w + "!! " + p && a[..|a| - 1] == w + "!";
    assert a[|a| - 1] == '!' && IsTerminator('!') && !IsSpace('!');
    CutAfter(a, p);
  }

  /** The first pass keeps `w!` as a sentence of its own. */
  lemma FirstPass(w: string, p: string)
    requires Word(w) && Word(p) && |w| == 3 && |p| > 4
    ensures Sentences([w + "!! " + p]) == [w + "!", p + "."]
  {
    FirstPassJoin(w, p);
    FirstPassCut(w, p);
    FirstPassFinish(w, p);
    SentencesFromPieces([w + "!! " + p], [w + "!", p], [w + "!", p + "."]);
  }

  /** Words followed by a terminator hold no whitespace. */
  lemma PunctuatedWords(w: string, p: string)
    requires Word(w) && Word(p)
    ensures forall i :: 0 <= i < |w + "!"| ==> !IsSpace((w + "!")[i])
    ensures forall i :: 0 <= i < |p + "."| ==> !IsSpace((p + ".")[i])
  {
  }

  /** The formatted text `w!`, blank line, `p.` is squashed into the line `w! p.`. */
  lemma SecondPassSquash(w: string, p: string)
    requires Word(w) && Word(p)
    ensures SquashSpaces(w + "!\n\n" + p + ".") == w + "! " + p + "."
  {
    var x, y := w + "!", p + ".";
    assert w + "!\n\n" + p + "." == x + ("\n\n" + y);
    PunctuatedWords(w, p);
    SquashKeepsUnspacedPrefix(x, "\n\n" + y);
    SquashNewlinesBeforeWord(y);
    assert x + (" " + y) == w + "! " + p + ".";
  }

  /** A trimmed line longer than every marker is kept as its whitespace squash. */
  lemma KeptSquashed(s: string)
    requires Trimmed(s) && |s| > 10
    ensures CleanLine(s) == Some(SquashSpaces(s))
  {
    LongIsNoMarker(s);
    NewlineSquashIsRedundant(s);
  }

  /** The formatted text starts with the first letter of `w` and ends with a full stop. */
  lemma SecondPassEnds(w: string, p: string)
    requires Word(w) && Word(p) && |w| == 3 && |p| > 4
    ensures Trimmed(w + "!\n\n" + p + ".") && |w + "!\n\n" + p + "."| > 10
  {
    var s := w + "!\n\n" + p + ".";
    assert s[0] == w[0] && s[|s| - 1] == '.';
  }

  /** The formatted text `w!`, blank line, `p.` becomes the line `w! p.`. */
  lemma SecondPassLine(w: string, p: string)
    requires Word(w) && Word(p) && |w| == 3 && |p| > 4
    ensures CleanLine(w + "!\n\n" + p + ".") == Some(w + "! " + p + ".")
  {
    SecondPassEnds(w, p);
    KeptSquashed(w + "!\n\n" + p + ".");
    SecondPassSquash(w, p);
  }

  /** The formatted text joins to the single line `w! p.`. */
  lemma SecondPassJoin(w: string, p: string)
    requires Word(w) && Word(p) && |w| == 3 && |p| > 4
    ensures JoinWith(CleanLines([w + "!\n\n" + p + "."]), " ") == w + "! " + p + "."
  {
    SecondPassLine(w, p);
    OneCueLine(w + "!\n\n" + p + ".", w + "! " + p + ".");
  }

  /** `w! p.` is cut after the `!`, which the cut removes. */
  lemma SecondPassCut(w: string, p: string)
    requires Word(w) && Word(p) && |w| == 3
    ensures SplitSentences(w + "! " + p + ".") == [w, p + "."]
  {
    var a, y := w + "!", p + ".";
    assert forall i :: 0 <= i < |a| - 2 ==> a[i] == w[i];
    assert forall i :: 0 <= i < |y| - 1 ==> y[i] == p[i];
    assert a + " " + y == w + "! " + p + "." && a[..|a| - 1] == w;
    assert a[|a| - 1] == '!' && IsTerminator('!') && !IsSpace('!');
    CutAfter(a, y);
  }

  /** The three characters of `w` are dropped and `p.` is kept. */
  lemma SecondPassFinish(w: string, p: string)
    requires Word(w) && Word(p) && |w| == 3 && |p| > 4
    ensures FinishSentences([w, p + "."]) == [p + "."]
  {
    var y := p + ".";
    assert FinishSentence(w) == None;
    assert y[0] == p[0] && y[|y| - 1] == '.';
    assert IsTerminator('.') && !IsSpace('.');
    FinishKeeps(y);
    SecondSentenceOnly(w, y, y);
  }

  /** The same text normalised again: `w!` loses its terminator to the cut and is then too short to keep. */
  lemma SecondPass(w: string, p: string)
    requires Word(w) && Word(p) && |w| == 3 && |p| > 4
    ensures Sentences([w + "!\n\n" + p + "."]) == [p + "."]
  {
    SecondPassJoin(w, p);
    SecondPassCut(w, p);
    SecondPassFinish(w, p);
    SentencesFromPieces([w + "!\n\n" + p + "."], [w, p + "."], [p + "."]);
  }

  /**
   * Normalising the formatted text again can drop a sentence: the four
   * characters `w!` form a sentence, but once the blank line becomes a space
   * the cut removes the `!` and leaves three characters, which are dropped.
   */
  lemma RenormalizingCanDropSentence(w: string, p: string)
    requires Word(w) && Word(p) && |w| == 3 && |p| > 4
    ensures Normalize([w + "!! " + p]) == w + "!\n\n" + p + "."
    ensures Normalize([Normalize([w + "!! " + p])]) == p + "."
  {
    FirstPass(w, p);
    ParagraphsSpelled(w, p);
    SecondPass(w, p);
    NormalizeTwice(w + "!! " + p, w + "!", p + ".", p + ".");
  }

  /** A cue that formats as two sentences, and whose formatted text formats as one. */
  lemma NormalizeTwice(cue: string, a: string, b: string, again: string)
    requires Sentences([cue]) == [a, b]
    requires Sentences([a + "\n\n" + b]) == [again]
    ensures Normalize([cue]) == a + "\n\n" + b
    ensures Normalize([Normalize([cue])]) == again
  {
    TwoParagraphs(a, b);
    OneSentenceText([a + "\n\n" + b], again);
  }

  /** The two paragraphs `w!` and `p.`, spelled out. */
  lemma ParagraphsSpelled(w: string, p: string)
    ensures (w + "!") + "\n\n" + (p + ".") == w + "!\n\n" + p + "."
  {
  }

  /** Two sentences are two paragraphs. */
  lemma TwoParagraphs(a: string, b: string)
    ensures JoinWith([a, b], "\n\n") == a + "\n\n" + b
  {
  }

  /** "Yes" and "Thanks" are words. */
  lemma YesThanksAreWords()
    ensures Word("Yes") && Word("Thanks")
  {
    var w, p := "Yes", "Thanks";
    assert forall i :: 0 <= i < |w| ==> !IsSpace(w[i]) && !IsTerminator(w[i]);
    assert forall i :: 0 <= i < |p| ==> !IsSpace(p[i]) && !IsTerminator(p[i]);
  }

  /** `"Yes!! Thanks"` formats as `"Yes!"` and `"Thanks."`; formatting that again leaves only `"Thanks."`. */
  lemma YesThanksLosesYes()
    ensures Normalize(["Yes!! Thanks"]) == "Yes!\n\nThanks."
    ensures Normalize([Normalize(["Yes!! Thanks"])]) == "Thanks."
  {
    YesThanksAreWords();
    assert "Yes" + "!! " + "Thanks" == "Yes!! Thanks";
    assert "Yes" + "!\n\n" + "Thanks" + "." == "Yes!\n\nThanks.";
    assert "Thanks" + "." == "Thanks.";
    RenormalizingCanDropSentence("Yes", "Thanks");
  }
}
