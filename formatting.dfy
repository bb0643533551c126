/**
 * The loops of the three `format_transcript` methods, proved against the
 * functions of `Normalizer` that say what they compute.
 */
module Formatting {
  import opened Wrappers
  import opened Text
  import opened Types
  import opened Normalizer

  /** The `text` attribute of every cue, in order. */
  function CueTexts(cues: seq<Cue>): (r: seq<string>)
    ensures |r| == |cues| && forall i :: 0 <= i < |cues| ==> r[i] == cues[i].text
  {
    seq(|cues|, i requires 0 <= i < |cues| => cues[i].text)
  }

  /** The texts of the entries that have one: an entry whose `'text'` lookup raises is skipped. */
  function PresentTexts(entries: seq<Entry>): (r: seq<string>)
    ensures |r| <= |entries|
    ensures (forall i :: 0 <= i < |entries| ==> entries[i].text.None?) ==> r == []
  {
    if entries == [] then []
    else
      var init := PresentTexts(entries[..|entries| - 1]);
      match entries[|entries| - 1].text
      case None => init
      case Some(t) => init + [t]
  }

  /** Every entry's text, a missing one read as the empty string. */
  function BlankedTexts(entries: seq<Entry>): (r: seq<string>)
    ensures |r| == |entries| && forall i :: 0 <= i < |entries| ==> r[i] == entries[i].text.GetOr("")
  {
    seq(|entries|, i requires 0 <= i < |entries| => entries[i].text.GetOr(""))
  }

  /** `PresentTexts`, one entry further. */
  lemma PresentTextsStep(init: seq<Entry>, e: Entry)
    ensures PresentTexts(init + [e]) == PresentTexts(init) + (if e.text.Some? then [e.text.value] else [])
  {
    assert (init + [e])[..|init|] == init;
  }

  /** `BlankedTexts`, one entry further. */
  lemma BlankedTextsStep(init: seq<Entry>, e: Entry)
    ensures BlankedTexts(init + [e]) == BlankedTexts(init) + [e.text.GetOr("")]
  {
  }

  /** Skipping an entry without text keeps the same lines as reading it as a blank cue. */
  lemma {:induction false} SkippingIsBlanking(entries: seq<Entry>)
    ensures CleanLines(PresentTexts(entries)) == CleanLines(BlankedTexts(entries))
  {
    if entries != [] {
      var init := entries[..|entries| - 1];
      var e := entries[|entries| - 1];
      assert entries == init + [e];
      SkippingIsBlanking(init);
      PresentTextsStep(init, e);
      BlankedTextsStep(init, e);
      CleanLinesStep(PresentTexts(init), e.text.GetOr(""));
      CleanLinesStep(BlankedTexts(init), e.text.GetOr(""));
      BlankLineIsDropped();
    }
  }

  /** A missing text and a blank one give the same formatted text. */
  lemma MissingTextIsBlank(entries: seq<Entry>)
    ensures Normalize(PresentTexts(entries)) == Normalize(BlankedTexts(entries))
  {
    SkippingIsBlanking(entries);
  }

  /** The first loop of `format_transcript`: strip each cue text, skip silent ones, squash the whitespace of the rest. */
  method CleanTexts(texts: seq<string>) returns (lines: seq<string>)
    ensures lines == CleanLines(texts)
  {
    lines := [];
    var i := 0;
    while i < |texts|
      invariant 0 <= i <= |texts|
      invariant lines == CleanLines(texts[..i])
    {
      assert texts[..i + 1][..i] == texts[..i];
      var t := Strip(texts[i]);
      if t != [] && !IsMarker(t) {
        t := SquashNewlines(t);
        t := SquashSpaces(t);
        lines := lines + [t];
      }
      i := i + 1;
    }
    assert texts[..i] == texts;
  }

  /** The body of the second loop for one piece: `None` when the piece is dropped. */
  method FinishPiece(piece: string) returns (r: Option<string>)
    ensures r == FinishSentence(piece)
  {
    var sentence := Strip(piece);
    if sentence != [] && |sentence| > 3 {
      if !IsTerminator(sentence[|sentence| - 1]) {
        sentence := sentence + ".";
      }
      return Some(sentence);
    }
    return None;
  }

  /** The second loop, one piece further. */
  lemma FinishPiecesStep(pieces: seq<string>, j: nat)
    requires j < |pieces|
    ensures FinishSentences(pieces[..j + 1]) ==
      FinishSentences(pieces[..j]) + (if FinishSentence(pieces[j]).Some? then [FinishSentence(pieces[j]).value] else [])
  {
    assert pieces[..j + 1] == pieces[..j] + [pieces[j]];
    FinishSentencesStep(pieces[..j], pieces[j]);
  }

  /** The second loop of `format_transcript`: strip each piece, drop short ones, end the rest with a terminator. */
  method FinishPieces(pieces: seq<string>) returns (sentences: seq<string>)
    ensures sentences == FinishSentences(pieces)
  {
    sentences := [];
    var j := 0;
    while j < |pieces|
      invariant 0 <= j <= |pieces|
      invariant sentences == FinishSentences(pieces[..j])
    {
      var finished := FinishPiece(pieces[j]);
      FinishPiecesStep(pieces, j);
      if finished.Some? {
        sentences := sentences + [finished.value];
      }
      j := j + 1;
    }
    assert pieces[..j] == pieces;
  }

  /**
   * `format_transcript` on a non-empty cue list: clean the cue texts, join
   * them with spaces, cut at sentence ends, finish each piece, join the
   * sentences with blank lines.
   */
  method FormatLines(texts: seq<string>) returns (text: string)
    ensures text == Normalize(texts)
  {
    var lines := CleanTexts(texts);
    var pieces := SplitSentences(JoinWith(lines, " "));
    var sentences := FinishPieces(pieces);
    text := JoinWith(sentences, "\n\n");
  }

  /** The loop of api/extract.py's `format_transcript`: strip each text, keep the non-empty ones, join with spaces. */
  method JoinKeptTexts(entries: seq<Entry>) returns (text: string)
    ensures text == SimpleFormat(entries)
  {
    var texts: seq<string> := [];
    var i := 0;
    while i < |entries|
      invariant 0 <= i <= |entries|
      invariant texts == KeptTexts(entries[..i])
    {
      assert entries[..i + 1][..i] == entries[..i];
      var t := Strip(entries[i].text.GetOr(""));
      if t != [] {
        texts := texts + [t];
      }
      i := i + 1;
    }
    assert entries[..i] == entries;
    text := JoinWith(texts, " ");
  }
}
