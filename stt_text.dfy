/**
  The counts the transcription panel derives from its transcript: the live
  word count kept beside the transcript (src/components/STT.jsx:79-80) and the
  integer figures of the "View Stats" notice (src/components/STT.jsx:777-779).
*/
module SttText {
  import opened JsString
  import opened JsSplit

  /** The sentence terminators of the class `[.!?]`. */
  predicate IsTerminator(c: char) {
    c == '.' || c == '!' || c == '?'
  }

  /** `t.trim().split(/\s+/).filter(word => word.length > 0).length`: the
      number of whitespace-delimited tokens, i.e. of non-whitespace characters
      that begin the text or follow whitespace. */
  function WordCount(t: string): (r: nat)
    ensures r == PieceStarts(t, IsSpace, true)
  {
    var pieces := SplitRuns(Trim(t), IsSpace);
    NonEmptyIsNonBlank(pieces);
    SplitRunsCount(Trim(t), IsSpace);
    TrimKeepsPieceStarts(t, IsSpace);
    |NonEmpty(pieces)|
  }

  /** A text of whitespace only has no words. */
  lemma WordCountBlank(t: string)
    requires Blank(t)
    ensures WordCount(t) == 0
  {
    BlankStarts(t, IsSpace, true);
  }

  /** Adding text with a whitespace between never loses a word: the count of
      `a + [sp] + b` is the sum of the two counts. */
  lemma WordCountJoin(a: string, sp: char, b: string)
    requires IsSpace(sp)
    ensures WordCount(a + [sp] + b) == WordCount(a) + WordCount(b)
  {
    PieceStartsConcat(a + [sp], b, IsSpace, true);
    PieceStartsConcat(a, [sp], IsSpace, true);
    assert OpenAfter(a + [sp], IsSpace, true) by {
      OpenAfterConcat(a, [sp], IsSpace, true);
    }
  }

  lemma {:induction false} OpenAfterConcat(a: string, b: string, sep: char -> bool, open: bool)
    ensures OpenAfter(a + b, sep, open) == OpenAfter(b, sep, OpenAfter(a, sep, open))
    decreases |a|
  {
    if a == [] {
      assert a + b == b;
    } else {
      assert (a + b)[1..] == a[1..] + b;
      OpenAfterConcat(a[1..], b, sep, if sep(a[0]) then true else if IsSpace(a[0]) then open else false);
    }
  }

  /** The integer figures of "View Stats". */
  datatype Stats = Stats(words: nat, sentences: nat, characters: nat, readingMinutes: nat)

  /** The "View Stats" figures of transcript `t`: `words` splits on single
      spaces (so it counts one more than the spaces), `sentences` counts the
      non-blank pieces between runs of `[.!?]`, `characters` is the UTF-16
      length and `readingMinutes` is `ceil(words / 200)`. */
  function ViewStats(t: string): (r: Stats)
    ensures r.words == Occurrences(t, ' ') + 1
    ensures r.sentences == PieceStarts(t, IsTerminator, true)
    ensures |t| <= r.characters <= 2 * |t|
    ensures r.readingMinutes * 200 >= r.words && (r.readingMinutes - 1) * 200 < r.words
  {
    var words := SplitAt(t, ' ');
    var sentences := NonBlank(SplitRuns(t, IsTerminator));
    SplitRunsCount(t, IsTerminator);
    Stats(|words|, |sentences|, Utf16Length(t), CeilDiv(|words|, 200))
  }

  /** `Math.ceil(a / b)` for a positive divisor. */
  function CeilDiv(a: nat, b: nat): (r: nat)
    requires b > 0
    ensures r * b >= a && (r - 1) * b < a
  {
    (a + b - 1) / b
  }

  /** `t.length`: JavaScript counts UTF-16 code units, two for a character
      outside the Basic Multilingual Plane. */
  function Utf16Length(t: string): (r: nat)
    ensures |t| <= r <= 2 * |t|
    ensures r == |t| <==> forall i :: 0 <= i < |t| ==> t[i] as int < 0x1_0000
    decreases |t|
  {
    if t == [] then 0 else (if t[0] as int < 0x1_0000 then 1 else 2) + Utf16Length(t[1..])
  }

  /** The two word figures disagree: on "hi yo ", a single-spaced
      transcript as recognition leaves it, "View Stats" reports 3 words where
      the panel's counter says 2. */
  lemma StatsWordsAfterFinal()
    ensures ViewStats("hi yo ").words == 3
    ensures WordCount("hi yo ") == 2
  {
    var t := "hi yo ";
    assert t == "hi" + [' '] + "yo ";
    SpacesOfSample();
    WordCountJoin("hi", ' ', "yo ");
    FirstWordOfSample();
    SecondWordOfSample();
  }

  lemma SpacesOfSample()
    ensures Occurrences("hi yo ", ' ') == 2
  {
    var t := "hi yo ";
    assert t[1..] == "i yo " && t[2..] == " yo " && t[3..] == "yo " && t[4..] == "o " && t[5..] == " ";
    assert Occurrences(" ", ' ') == 1;
    assert Occurrences("yo ", ' ') == 1;
  }

  lemma FirstWordOfSample()
    ensures WordCount("hi") == 1
  {
    assert !IsSpace('h') && !IsSpace('i');
    assert "hi"[1..] == "i" && "i"[1..] == [];
  }

  lemma SecondWordOfSample()
    ensures WordCount("yo ") == 1
  {
    assert !IsSpace('y') && !IsSpace('o') && IsSpace(' ');
    assert "yo "[1..] == "o " && "o "[1..] == " " && " "[1..] == [];
  }
}
