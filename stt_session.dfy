/**
  The transcription session of the speech-to-text panel
  (src/components/STT.jsx): the listening/paused flags driven by the four
  control actions and by the recognizer's callbacks, and the transcript
  buffer that `onresult` appends to. Each handler is one atomic update of
  the panel's state; the recognizer itself is the source of the events.
*/
module Stt {
  import opened JsString
  import opened SttText
  import opened SttFormat
  import opened JsSplit

  /** The first alternative of one recognition result. */
  datatype Segment = Segment(text: string, isFinal: bool, confidence: real)

  /** A `SpeechRecognitionEvent`: the results so far, of which those from
      `resultIndex` on are new. */
  datatype RecognitionEvent = RecognitionEvent(resultIndex: nat, results: seq<Segment>)

  /** `s[lo..hi]`, or nothing when the bounds do not describe a slice. */
  function Slice(s: seq<Segment>, lo: nat, hi: nat): seq<Segment> {
    if lo <= hi <= |s| then s[lo..hi] else []
  }

  /** Extending a slice by one result extends each text by that result's
      contribution. */
  lemma SliceStep(s: seq<Segment>, lo: nat, i: nat)
    requires lo <= i < |s|
    ensures FinalText(Slice(s, lo, i + 1))
         == FinalText(Slice(s, lo, i)) + (if s[i].isFinal then s[i].text + " " else "")
    ensures InterimText(Slice(s, lo, i + 1))
         == InterimText(Slice(s, lo, i)) + (if s[i].isFinal then "" else s[i].text)
    ensures LastConfidence(Slice(s, lo, i + 1))
         == if s[i].isFinal then Score(s[i].confidence) else LastConfidence(Slice(s, lo, i))
  {
    var next := Slice(s, lo, i + 1);
    assert next[..|next| - 1] == Slice(s, lo, i) && next[|next| - 1] == s[i];
  }

  /** The results the handler visits: from `resultIndex` to the end. */
  function Fresh(ev: RecognitionEvent): seq<Segment> {
    Slice(ev.results, ev.resultIndex, |ev.results|)
  }

  /** Each final segment's text followed by one space, in order. */
  function FinalText(segs: seq<Segment>): string
    decreases |segs|
  {
    if segs == [] then ""
    else
      var last := segs[|segs| - 1];
      FinalText(segs[..|segs| - 1]) + (if last.isFinal then last.text + " " else "")
  }

  /** The non-final segments' texts run together, in order. */
  function InterimText(segs: seq<Segment>): string
    decreases |segs|
  {
    if segs == [] then ""
    else
      var last := segs[|segs| - 1];
      InterimText(segs[..|segs| - 1]) + (if last.isFinal then "" else last.text)
  }

  /** `confidence || 0.9`: a zero score stands for "not reported". */
  function Score(c: real): (r: real)
    ensures r != 0.0
    ensures c != 0.0 ==> r == c
    ensures c == 0.0 ==> r == 0.9
  {
    if c == 0.0 then 0.9 else c
  }

  /** The score of the last final segment, or 0 when there is none. */
  function LastConfidence(segs: seq<Segment>): real
    decreases |segs|
  {
    if segs == [] then 0.0
    else
      var last := segs[|segs| - 1];
      if last.isFinal then Score(last.confidence) else LastConfidence(segs[..|segs| - 1])
  }

  predicate HasFinal(segs: seq<Segment>) {
    exists i :: 0 <= i < |segs| && segs[i].isFinal
  }

  /** The appended text is empty exactly when no segment is final, and
      otherwise ends with the separating space. */
  lemma {:induction false} FinalTextEmpty(segs: seq<Segment>)
    ensures FinalText(segs) == "" <==> !HasFinal(segs)
    ensures FinalText(segs) != "" ==> FinalText(segs)[|FinalText(segs)| - 1] == ' '
    decreases |segs|
  {
    if segs != [] {
      var pre := segs[..|segs| - 1];
      FinalTextEmpty(pre);
      assert HasFinal(segs) <==> HasFinal(pre) || segs[|segs| - 1].isFinal by {
        if HasFinal(pre) {
          var i :| 0 <= i < |pre| && pre[i].isFinal;
          assert segs[i] == pre[i];
        }
        if HasFinal(segs) && !segs[|segs| - 1].isFinal {
          var i :| 0 <= i < |segs| && segs[i].isFinal;
          assert pre[i] == segs[i];
        }
      }
    }
  }

  /** The appended text is built segment by segment: it distributes over
      concatenation. */
  lemma {:induction false} FinalTextConcat(a: seq<Segment>, b: seq<Segment>)
    ensures FinalText(a + b) == FinalText(a) + FinalText(b)
    decreases |b|
  {
    if b == [] {
      assert a + b == a;
    } else {
      var n := |b| - 1;
      assert (a + b)[..|a + b| - 1] == a + b[..n];
      FinalTextConcat(a, b[..n]);
    }
  }

  /** So is the interim text. */
  lemma {:induction false} InterimTextConcat(a: seq<Segment>, b: seq<Segment>)
    ensures InterimText(a + b) == InterimText(a) + InterimText(b)
    decreases |b|
  {
    if b == [] {
      assert a + b == a;
    } else {
      var n := |b| - 1;
      assert (a + b)[..|a + b| - 1] == a + b[..n];
      InterimTextConcat(a, b[..n]);
    }
  }

  /** A lone segment contributes its text and a space when final, and only
      to the interim text otherwise. */
  lemma SegmentTexts(x: Segment)
    ensures FinalText([x]) == if x.isFinal then x.text + " " else ""
    ensures InterimText([x]) == if x.isFinal then "" else x.text
  {
    assert [x][..0] == [];
  }

  /** Interim text is empty when every segment is final. */
  lemma {:induction false} InterimOfFinals(segs: seq<Segment>)
    requires forall i :: 0 <= i < |segs| ==> segs[i].isFinal
    ensures InterimText(segs) == ""
    decreases |segs|
  {
    if segs != [] {
      InterimOfFinals(segs[..|segs| - 1]);
    }
  }

  /** The number of words in the final segments' texts. */
  function FinalWords(segs: seq<Segment>): nat
    decreases |segs|
  {
    if segs == [] then 0
    else
      var last := segs[|segs| - 1];
      FinalWords(segs[..|segs| - 1]) + (if last.isFinal then WordCount(last.text) else 0)
  }

  /** A text that is empty or ends with whitespace: what follows it starts a
      new word. */
  predicate EndsOpen(t: string) {
    t == [] || IsSpace(t[|t| - 1])
  }

  /** On a transcript that is empty or ends with whitespace, the new word
      count is the old one plus the words of the new finals: no word is
      merged with the one before it, and the transcript again ends with
      whitespace. */
  lemma {:induction false} WordCountGrows(t: string, segs: seq<Segment>)
    requires EndsOpen(t)
    ensures WordCount(t + FinalText(segs)) == WordCount(t) + FinalWords(segs)
    ensures EndsOpen(t + FinalText(segs))
    decreases |segs|
  {
    if segs == [] {
      assert t + "" == t;
    } else {
      var pre := segs[..|segs| - 1];
      var last := segs[|segs| - 1];
      WordCountGrows(t, pre);
      GrowsBySegment(t, FinalText(pre), last);
    }
  }

  /** One more segment on top of `t + prev`. */
  lemma GrowsBySegment(t: string, prev: string, last: Segment)
    requires EndsOpen(t + prev)
    ensures var w := if last.isFinal then last.text + " " else "";
      && WordCount(t + (prev + w)) == WordCount(t + prev) + (if last.isFinal then WordCount(last.text) else 0)
      && EndsOpen(t + (prev + w))
  {
    var w := if last.isFinal then last.text + " " else "";
    assert t + (prev + w) == (t + prev) + w;
    if last.isFinal {
      AppendFinalWords(t + prev, last.text);
    } else {
      assert (t + prev) + w == t + prev;
    }
  }

  /** Appending one final segment's text and its space. */
  lemma AppendFinalWords(u: string, w: string)
    requires EndsOpen(u)
    ensures WordCount(u + (w + " ")) == WordCount(u) + WordCount(w)
    ensures EndsOpen(u + (w + " "))
  {
    WordCountAfterSpace(u, w + " ");
    WordCountTrailingSpace(w);
    assert IsSpace(' ');
  }

  /** After whitespace, the words of a suffix simply add on. */
  lemma WordCountAfterSpace(a: string, b: string)
    requires EndsOpen(a)
    ensures WordCount(a + b) == WordCount(a) + WordCount(b)
  {
    if a != [] {
      var n := |a| - 1;
      assert a == a[..n] + [a[n]];
      assert a + b == a[..n] + [a[n]] + b;
      WordCountJoin(a[..n], a[n], b);
      WordCountJoin(a[..n], a[n], []);
      assert a[..n] + [a[n]] + [] == a;
      WordCountBlank([]);
    } else {
      assert a + b == b;
      WordCountBlank(a);
    }
  }

  /** A trailing space adds no word. */
  lemma WordCountTrailingSpace(s: string)
    ensures WordCount(s + " ") == WordCount(s)
  {
    assert IsSpace(' ');
    assert s + " " == s + [' '] + [];
    WordCountJoin(s, ' ', []);
    WordCountBlank([]);
  }

  /** The loop of `onresult` over the new results: it collects the final
      texts, each followed by a space, the interim texts, and the last final
      score. */
  method ScanResults(ev: RecognitionEvent) returns (finalText: string, interimText: string, avgConfidence: real)
    ensures finalText == FinalText(Fresh(ev))
    ensures interimText == InterimText(Fresh(ev))
    ensures avgConfidence == LastConfidence(Fresh(ev))
  {
    var lo := ev.resultIndex;
    finalText, interimText, avgConfidence := "", "", 0.0;
    var i := lo;
    while i < |ev.results|
      invariant lo <= i && (i <= |ev.results| || i == lo)
      invariant finalText == FinalText(Slice(ev.results, lo, i))
      invariant interimText == InterimText(Slice(ev.results, lo, i))
      invariant avgConfidence == LastConfidence(Slice(ev.results, lo, i))
      decreases |ev.results| - i
    {
      var result := ev.results[i];
      SliceStep(ev.results, lo, i);
      if result.isFinal {
        finalText := finalText + result.text + " ";
        avgConfidence := Score(result.confidence);
      } else {
        interimText := interimText + result.text;
      }
      i := i + 1;
    }
    assert Slice(ev.results, lo, i) == Fresh(ev);
  }

  /** The speech-to-text panel's session and transcript state. */
  class SttSession {
    /** Whether the browser offers a recognizer; without one every control
        is inert. */
    const supported: bool
    var listening: bool
    var paused: bool
    var transcript: string
    var interim: string
    var wordCount: nat
    var confidence: real
    var sessionTime: nat

    /** The session flags agree: a paused session is a listening one. */
    predicate Coherent()
      reads this
    {
      paused ==> listening
    }

    /** The word counter shows the words of the transcript. */
    predicate CountCurrent()
      reads this
    {
      wordCount == WordCount(transcript)
    }

    constructor(supported: bool)
      ensures this.supported == supported
      ensures !listening && !paused
      ensures transcript == "" && interim == "" && wordCount == 0
      ensures confidence == 0.0 && sessionTime == 0
      ensures Coherent() && CountCurrent()
    {
      this.supported := supported;
      listening, paused := false, false;
      transcript, interim := "", "";
      wordCount, confidence, sessionTime := 0, 0.0, 0;
      new;
      WordCountBlank("");
    }

    /** `startListening`: only an idle session starts, and it starts unpaused. */
    method StartListening()
      modifies this
      ensures supported && !old(listening) ==> listening && !paused
      ensures !(supported && !old(listening)) ==> listening == old(listening) && paused == old(paused)
      ensures transcript == old(transcript) && interim == old(interim) && wordCount == old(wordCount)
      ensures confidence == old(confidence) && sessionTime == old(sessionTime)
      ensures old(Coherent()) ==> Coherent()
    {
      if supported && !listening {
        listening := true;
        paused := false;
      }
    }

    /** `pauseListening`: a listening session becomes paused. */
    method PauseListening()
      modifies this
      ensures supported && old(listening) ==> paused
      ensures !(supported && old(listening)) ==> paused == old(paused)
      ensures listening == old(listening)
      ensures transcript == old(transcript) && interim == old(interim) && wordCount == old(wordCount)
      ensures confidence == old(confidence) && sessionTime == old(sessionTime)
      ensures old(Coherent()) ==> Coherent()
    {
      if supported && listening {
        paused := true;
      }
    }

    /** `resumeListening`: a paused session is unpaused; the listening flag
        is not consulted or changed. */
    method ResumeListening()
      modifies this
      ensures supported && old(paused) ==> !paused
      ensures !(supported && old(paused)) ==> paused == old(paused)
      ensures listening == old(listening)
      ensures transcript == old(transcript) && interim == old(interim) && wordCount == old(wordCount)
      ensures confidence == old(confidence) && sessionTime == old(sessionTime)
      ensures old(Coherent()) ==> Coherent()
    {
      if supported && paused {
        paused := false;
      }
    }

    /** `stopListening`: from any state, neither listening nor paused. */
    method StopListening()
      modifies this
      ensures supported ==> !listening && !paused
      ensures !supported ==> listening == old(listening) && paused == old(paused)
      ensures transcript == old(transcript) && interim == old(interim) && wordCount == old(wordCount)
      ensures confidence == old(confidence) && sessionTime == old(sessionTime)
      ensures old(Coherent()) ==> Coherent()
    {
      if supported {
        listening := false;
        paused := false;
      }
    }

    /** `onerror`: listening stops, whatever the error; `paused` and the
        text are left as they are. The result says whether the
        microphone-denied notice is shown. */
    method OnError(error: string) returns (notice: bool)
      requires supported
      modifies this
      ensures notice <==> error == "not-allowed"
      ensures !listening && paused == old(paused)
      ensures transcript == old(transcript) && interim == old(interim) && wordCount == old(wordCount)
      ensures confidence == old(confidence) && sessionTime == old(sessionTime)
    {
      notice := error == "not-allowed";
      listening := false;
    }

    /** `onend`: unless paused, the session goes idle and the interim text
        is dropped; while paused nothing changes. */
    method OnEnd()
      requires supported
      modifies this
      ensures !old(paused) ==> !listening && interim == ""
      ensures old(paused) ==> listening == old(listening) && interim == old(interim)
      ensures paused == old(paused)
      ensures transcript == old(transcript) && wordCount == old(wordCount)
      ensures confidence == old(confidence) && sessionTime == old(sessionTime)
      ensures old(Coherent()) ==> Coherent()
    {
      if !paused {
        listening := false;
        interim := "";
      }
    }

    /** `onresult`: the new finals are appended to the transcript, each with
        a trailing space, and the word count is recomputed when there is
        one; the interim text is replaced by the new non-finals; the
        confidence takes the last final's score when that is positive. */
    method OnResult(ev: RecognitionEvent)
      requires supported
      modifies this
      ensures transcript == old(transcript) + FinalText(Fresh(ev))
      ensures HasFinal(Fresh(ev)) ==> wordCount == WordCount(transcript)
      ensures !HasFinal(Fresh(ev)) ==> transcript == old(transcript) && wordCount == old(wordCount)
      ensures interim == InterimText(Fresh(ev))
      ensures confidence == if LastConfidence(Fresh(ev)) > 0.0 then LastConfidence(Fresh(ev)) else old(confidence)
      ensures listening == old(listening) && paused == old(paused) && sessionTime == old(sessionTime)
      ensures old(CountCurrent()) ==> CountCurrent()
    {
      var finalText, interimText, avgConfidence := ScanResults(ev);
      FinalTextEmpty(Fresh(ev));
      if finalText != "" {
        transcript := transcript + finalText;
        wordCount := WordCount(transcript);
      } else {
        assert transcript + finalText == transcript;
      }
      interim := interimText;
      if avgConfidence > 0.0 {
        confidence := avgConfidence;
      }
    }

    /** `clearTranscript`: the text, the counters and the clock are reset;
        the session flags are not touched. */
    method ClearTranscript()
      modifies this
      ensures transcript == "" && interim == "" && wordCount == 0
      ensures confidence == 0.0 && sessionTime == 0
      ensures listening == old(listening) && paused == old(paused)
      ensures CountCurrent()
    {
      transcript, interim := "", "";
      wordCount, confidence, sessionTime := 0, 0.0, 0;
      WordCountBlank("");
    }

    /** "Format Text": only the transcript is rewritten; the word counter
        keeps its old value. */
    method FormatTranscript()
      modifies this
      ensures transcript == FormatText(old(transcript))
      ensures wordCount == old(wordCount) && interim == old(interim)
      ensures listening == old(listening) && paused == old(paused)
      ensures confidence == old(confidence) && sessionTime == old(sessionTime)
    {
      transcript := FormatText(transcript);
    }
  }

  /** After "Format Text" the transcript no longer ends with whitespace, so
      the next final result is glued to its last word: "a " formats to "a",
      a final "b" then makes "ab ", and the count finds one word where two
      were spoken. */
  lemma FormatThenFinalGlues()
    ensures FormatText("a ") == "a"
    ensures "a" + FinalText([Segment("b", true, 0.9)]) == "ab "
    ensures WordCount("a ") == 1 && WordCount("b") == 1
    ensures WordCount("ab ") == 1
  {
    FormatOfSpacedSample();
    GlueSample();
    WordsOfGlueSample();
  }

  lemma GlueSample()
    ensures "a" + FinalText([Segment("b", true, 0.9)]) == "ab "
  {
    SegmentTexts(Segment("b", true, 0.9));
    assert "a" + ("b" + " ") == "ab ";
  }

  lemma WordsOfGlueSample()
    ensures WordCount("a ") == 1 && WordCount("b") == 1 && WordCount("ab ") == 1
  {
    OneLetterWord('a');
    OneLetterWord('b');
    assert "a" == ['a'] && "b" == ['b'];
    WordCountTrailingSpace("a");
    assert "a" + " " == "a ";
    WordCountTrailingSpace("ab");
    assert "ab" + " " == "ab ";
    GluedWord();
  }

  lemma FormatOfSpacedSample()
    ensures FormatText("a ") == "a"
  {
    assert IsSpace(' ') && !IsSpace('a') && !IsTerminator('a');
    assert "a "[1..] == " " && " "[1..] == [];
    assert OnePass(" ") == " ";
    assert OnePass("a ") == "a ";
    FormatInOnePass("a ");
    assert "a "[..1] == "a";
    assert TrimEnd("a ") == "a";
  }

  lemma OneLetterWord(c: char)
    requires !IsSpace(c)
    ensures WordCount([c]) == 1
  {
    assert [c][1..] == [];
    assert PieceStarts([c], IsSpace, true) == 1 + PieceStarts([], IsSpace, false);
  }

  lemma GluedWord()
    ensures WordCount("ab") == 1
  {
    assert !IsSpace('a') && !IsSpace('b');
    assert "ab"[1..] == "b" && "b"[1..] == [];
  }

  /** A recognizer error while paused leaves a paused session that is not
      listening: the two flags disagree, and "resume" then clears `paused`
      without setting `listening`. */
  method ErrorWhilePaused() returns (pausedAfterError: bool, listeningAfterError: bool, listeningAfterResume: bool)
    ensures pausedAfterError && !listeningAfterError
    ensures !listeningAfterResume
  {
    var s := new SttSession(true);
    s.StartListening();
    s.PauseListening();
    var notice := s.OnError("network");
    pausedAfterError, listeningAfterError := s.paused, s.listening;
    s.ResumeListening();
    listeningAfterResume := s.listening;
  }
}
