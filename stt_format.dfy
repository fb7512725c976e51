/**
  The "Format Text" action of the transcription panel
  (src/components/STT.jsx:787-793): three rewrites of the transcript, proved
  to keep every non-whitespace character in order and to leave a tidy text
  whose only whitespace is single spaces between words and a blank line after
  each sentence terminator.
*/
module SttFormat {
  import opened JsString
  import opened JsSplit
  import opened SttText

  // `s.replace(/\s+/g, ' ')`: every maximal whitespace run becomes one space.
  function CollapseSpaces(s: string): string
    decreases |s|
  {
    if s == [] then []
    else if IsSpace(s[0]) then [' '] + CollapseSpaces(TrimStart(s))
    else [s[0]] + CollapseSpaces(s[1..])
  }

  // `s.replace(/([.!?])\s*/g, '$1\n\n')`: each terminator, together with the
  // whitespace run that follows it, becomes the terminator and "\n\n".
  function BreakSentences(s: string): string
    decreases |s|
  {
    if s == [] then []
    else if IsTerminator(s[0]) then [s[0], '\n', '\n'] + BreakSentences(TrimStart(s[1..]))
    else [s[0]] + BreakSentences(s[1..])
  }

  /** The shape of a formatted text, read from the front: it is empty, or it
      starts with a non-whitespace character that is either the last one, or
      a terminator followed by exactly "\n\n" and more tidy text, or another
      character followed by at most one space and more tidy text. So a tidy
      text neither starts nor ends with whitespace. */
  predicate Tidy(r: string)
    decreases |r|
  {
    r == [] ||
    (!IsSpace(r[0]) &&
      (|r| == 1 ||
       (if IsTerminator(r[0]) then |r| > 3 && r[1] == '\n' && r[2] == '\n' && Tidy(r[3..])
        else if r[1] == ' ' then |r| > 2 && Tidy(r[2..])
        else Tidy(r[1..]))))
  }

  /** The transcript after "Format Text": nothing but whitespace changes, and
      the result is tidy. */
  function FormatText(s: string): (r: string)
    ensures NonSpace(r) == NonSpace(s)
    ensures Tidy(r)
  {
    var r := Trim(BreakSentences(CollapseSpaces(s)));
    FormatInOnePass(s);
    NonSpaceOnePass(s);
    NonSpaceTrim(OnePass(s));
    TrimStartOnePass(s);
    OnePassTidy(TrimStart(s));
    r
  }

  /** The two rewrites fused into one left-to-right pass. */
  function OnePass(s: string): (r: string)
    ensures (r == []) == (s == [])
    ensures s != [] ==> r[0] == if IsSpace(s[0]) then ' ' else s[0]
    decreases |s|
  {
    if s == [] then []
    else if IsSpace(s[0]) then [' '] + OnePass(TrimStart(s))
    else if IsTerminator(s[0]) then [s[0], '\n', '\n'] + OnePass(TrimStart(s[1..]))
    else [s[0]] + OnePass(s[1..])
  }

  lemma FormatInOnePass(s: string)
    ensures Trim(BreakSentences(CollapseSpaces(s))) == Trim(OnePass(s))
  {
    BreakAfterCollapse(s);
  }

  /** Collapsing and then breaking is the single pass. */
  lemma {:induction false} BreakAfterCollapse(s: string)
    ensures BreakSentences(CollapseSpaces(s)) == OnePass(s)
    decreases |s|
  {
    if s == [] {
    } else if IsSpace(s[0]) {
      var x := CollapseSpaces(TrimStart(s));
      assert ([' '] + x)[0] == ' ' && ([' '] + x)[1..] == x;
      BreakAfterCollapse(TrimStart(s));
    } else if IsTerminator(s[0]) {
      var x := CollapseSpaces(s[1..]);
      assert ([s[0]] + x)[1..] == x;
      TrimStartCollapse(s[1..]);
      BreakAfterCollapse(TrimStart(s[1..]));
    } else {
      var x := CollapseSpaces(s[1..]);
      assert ([s[0]] + x)[1..] == x;
      BreakAfterCollapse(s[1..]);
    }
  }

  /** Collapsing whitespace commutes with dropping leading whitespace. */
  lemma TrimStartCollapse(s: string)
    ensures TrimStart(CollapseSpaces(s)) == CollapseSpaces(TrimStart(s))
  {
    if s != [] && IsSpace(s[0]) {
      var x := CollapseSpaces(TrimStart(s));
      assert x == [] || !IsSpace(x[0]) by {
        CollapseStartsWith(TrimStart(s));
      }
      assert ([' '] + x)[1..] == x;
      assert TrimStart([' '] + x) == TrimStart(x);
      TrimStartIdle(x);
      TrimStartIdle(TrimStart(s));
    } else {
      CollapseStartsWith(s);
      TrimStartIdle(CollapseSpaces(s));
    }
  }

  lemma CollapseStartsWith(s: string)
    ensures s != [] ==> CollapseSpaces(s) != [] && CollapseSpaces(s)[0] == if IsSpace(s[0]) then ' ' else s[0]
    ensures s == [] ==> CollapseSpaces(s) == []
  {
  }

  lemma TrimStartOnePass(s: string)
    ensures TrimStart(OnePass(s)) == OnePass(TrimStart(s))
  {
    var t := TrimStart(s);
    TrimStartIdle(OnePass(t));
    if s != [] && IsSpace(s[0]) {
      var x := OnePass(t);
      assert ([' '] + x)[1..] == x;
      assert TrimStart([' '] + x) == TrimStart(x);
      TrimStartIdle(TrimStart(s));
    } else {
      TrimStartIdle(s);
    }
  }

  /** The single pass keeps every non-whitespace character in order. */
  lemma {:induction false} NonSpaceOnePass(s: string)
    ensures NonSpace(OnePass(s)) == NonSpace(s)
    decreases |s|
  {
    if s == [] {
    } else if IsSpace(s[0]) {
      NonSpaceOnePass(TrimStart(s));
      NonSpaceConcat([' '], OnePass(TrimStart(s)));
      NonSpaceTrimStart(s);
    } else if IsTerminator(s[0]) {
      NonSpaceOnePass(TrimStart(s[1..]));
      NonSpaceConcat([s[0], '\n', '\n'], OnePass(TrimStart(s[1..])));
      NonSpaceTrimStart(s[1..]);
      assert NonSpace([s[0], '\n', '\n']) == [s[0]] by {
        assert [s[0], '\n', '\n'][1..] == ['\n', '\n'];
        assert ['\n', '\n'][1..] == ['\n'];
      }
    } else {
      NonSpaceOnePass(s[1..]);
      NonSpaceConcat([s[0]], OnePass(s[1..]));
    }
  }

  /** The single pass, stripped of trailing whitespace, is tidy. */
  lemma {:induction false} OnePassTidy(s: string)
    requires s == [] || !IsSpace(s[0])
    ensures Tidy(TrimEnd(OnePass(s)))
    decreases |s|
  {
    if s == [] {
    } else if IsTerminator(s[0]) {
      TerminatorNotSpace(s[0]);
      var t := TrimStart(s[1..]);
      var head := [s[0], '\n', '\n'];
      assert OnePass(s) == head + OnePass(t);
      if t == [] {
        assert head + OnePass(t) == head;
        TrimEndOfBreak(s[0]);
      } else {
        OnePassTidy(t);
        TrimEndGlue(head, OnePass(t));
        TidyAfterTerminator(s[0], TrimEnd(OnePass(t)));
      }
    } else if |s| == 1 {
      assert OnePass(s) == [s[0]] + OnePass([]);
    } else if IsSpace(s[1]) {
      var t := TrimStart(s[1..]);
      var head := [s[0], ' '];
      assert OnePass(s) == [s[0]] + OnePass(s[1..]);
      assert OnePass(s[1..]) == [' '] + OnePass(t);
      assert OnePass(s) == head + OnePass(t);
      if t == [] {
        assert head + OnePass(t) == head;
        assert TrimEnd(head) == [s[0]] by {
          assert IsSpace(' ');
          assert head[..1] == [s[0]];
        }
      } else {
        OnePassTidy(t);
        TrimEndGlue(head, OnePass(t));
        TidyAfterSpace(s[0], TrimEnd(OnePass(t)));
      }
    } else {
      var x := OnePass(s[1..]);
      assert OnePass(s) == [s[0]] + x;
      OnePassTidy(s[1..]);
      TrimEndGlue([s[0]], x);
      TidyAfterChar(s[0], TrimEnd(x));
    }
  }

  /** A lone terminator's "\n\n" is trailing whitespace. */
  lemma TrimEndOfBreak(c: char)
    requires !IsSpace(c)
    ensures TrimEnd([c, '\n', '\n']) == [c]
  {
    var head := [c, '\n', '\n'];
    assert IsSpace('\n');
    assert head[..2] == [c, '\n'];
    assert TrimEnd(head) == TrimEnd([c, '\n']);
    assert [c, '\n'][..1] == [c];
    assert TrimEnd([c, '\n']) == TrimEnd([c]);
  }

  /** `trimEnd` only reaches into the last part when that part is not blank. */
  lemma TrimEndGlue(head: string, x: string)
    requires x != [] && !IsSpace(x[0])
    ensures TrimEnd(head + x) == head + TrimEnd(x) && TrimEnd(x) != []
  {
    assert !Blank(x);
    TrimEndConcat(head, x);
    TrimEndEmpty(x);
  }

  lemma TidyAfterTerminator(c: char, y: string)
    requires IsTerminator(c) && y != [] && Tidy(y)
    ensures Tidy([c, '\n', '\n'] + y)
  {
    TerminatorNotSpace(c);
    var r := [c, '\n', '\n'] + y;
    assert r[3..] == y;
  }

  lemma TidyAfterSpace(c: char, y: string)
    requires !IsSpace(c) && !IsTerminator(c) && y != [] && Tidy(y)
    ensures Tidy([c, ' '] + y)
  {
    var r := [c, ' '] + y;
    assert r[2..] == y;
  }

  lemma TidyAfterChar(c: char, y: string)
    requires !IsSpace(c) && !IsTerminator(c) && y != [] && Tidy(y)
    ensures Tidy([c] + y)
  {
    var r := [c] + y;
    assert IsSpace(' ');
    assert r[1] == y[0] && r[1..] == y;
  }

  /** A tidy text ends with a non-whitespace character. */
  lemma {:induction false} TidyEnd(r: string)
    requires Tidy(r) && r != []
    ensures !IsSpace(r[|r| - 1])
    decreases |r|
  {
    if |r| > 1 {
      var k := if IsTerminator(r[0]) then 3 else if r[1] == ' ' then 2 else 1;
      TidyEnd(r[k..]);
      assert r[k..][|r[k..]| - 1] == r[|r| - 1];
    }
  }

  /** Formatting a formatted transcript changes nothing. */
  lemma FormatTextIdempotent(s: string)
    ensures FormatText(FormatText(s)) == FormatText(s)
  {
    var r := FormatText(s);
    OnePassOfTidy(r);
    FormatInOnePass(r);
    TrimStartOnePass(r);
    TrimStartIdle(r);
    if r != [] {
      TidyEnd(r);
      if IsTerminator(r[|r| - 1]) {
        TrimEndBlankSuffix(r, Coda(r));
      }
    }
    TrimEndIdle(r);
  }

  /** On a tidy text, the single pass only adds "\n\n" after a final
      terminator. */
  lemma {:induction false} OnePassOfTidy(r: string)
    requires Tidy(r)
    ensures OnePass(r) == r + Coda(r)
    decreases |r|
  {
    if r == [] {
    } else if |r| == 1 {
      OnePassSingle(r);
    } else {
      var k := TidyStep(r);
      var rest := r[k..];
      OnePassOfTidy(rest);
      assert Coda(r) == Coda(rest) by {
        assert r[|r| - 1] == rest[|rest| - 1];
      }
      assert r[..k] + rest == r;
    }
  }

  lemma OnePassSingle(r: string)
    requires |r| == 1 && !IsSpace(r[0])
    ensures OnePass(r) == r + Coda(r)
  {
    if IsTerminator(r[0]) {
      assert OnePass(r) == [r[0], '\n', '\n'] + OnePass(TrimStart([]));
    } else {
      assert OnePass(r) == [r[0]] + OnePass([]);
    }
  }

  /** What the single pass adds at the end of a tidy text. */
  function Coda(r: string): string {
    if r != [] && IsTerminator(r[|r| - 1]) then "\n\n" else ""
  }

  /** A tidy text of two or more characters starts with a word character
      and its gap, which the single pass copies, followed by more tidy
      text. */
  lemma TidyStep(r: string) returns (k: nat)
    requires Tidy(r) && |r| > 1
    ensures 1 <= k < |r| && Tidy(r[k..])
    ensures OnePass(r) == r[..k] + OnePass(r[k..])
  {
    k := if IsTerminator(r[0]) then 3 else if r[1] == ' ' then 2 else 1;
    if k == 3 {
      OnePassAfterTerminator(r);
    } else if k == 2 {
      OnePassAfterSpace(r);
    } else {
      assert OnePass(r) == [r[0]] + OnePass(r[1..]);
      assert r[..1] == [r[0]];
    }
  }

  /** On a tidy text, a terminator and its "\n\n" pass through unchanged. */
  lemma OnePassAfterTerminator(r: string)
    requires |r| > 3 && IsTerminator(r[0]) && r[1] == '\n' && r[2] == '\n' && !IsSpace(r[3])
    ensures OnePass(r) == r[..3] + OnePass(r[3..])
  {
    var t := r[1..];
    TerminatorNotSpace(r[0]);
    assert OnePass(r) == [r[0], '\n', '\n'] + OnePass(TrimStart(t));
    assert t[2..] == r[3..];
    TrimStartOfBreak(t);
    assert r[..3] == [r[0], '\n', '\n'];
  }

  /** `trimStart` drops exactly the "\n\n" in front of a word. */
  lemma TrimStartOfBreak(t: string)
    requires |t| > 2 && t[0] == '\n' && t[1] == '\n' && !IsSpace(t[2])
    ensures TrimStart(t) == t[2..]
  {
    assert IsSpace('\n');
    BlankThenIdle(t, 2);
  }

  lemma TerminatorNotSpace(c: char)
    requires IsTerminator(c)
    ensures !IsSpace(c)
  {
  }

  /** On a tidy text, a single space between words passes through unchanged. */
  lemma OnePassAfterSpace(r: string)
    requires |r| > 2 && !IsSpace(r[0]) && !IsTerminator(r[0]) && r[1] == ' ' && !IsSpace(r[2])
    ensures OnePass(r) == r[..2] + OnePass(r[2..])
  {
    var t := r[1..];
    assert IsSpace(' ') && t[0] == ' ';
    assert TrimStart(t) == r[2..] by {
      BlankThenIdle(t, 1);
      assert t[1..] == r[2..];
    }
    assert OnePass(t) == [' '] + OnePass(r[2..]);
    assert OnePass(r) == [r[0]] + OnePass(t);
    assert r[..2] == [r[0], ' '];
  }

  /** `trimStart` drops exactly a blank prefix that is followed by a
      non-whitespace character. */
  lemma {:induction false} BlankThenIdle(s: string, k: nat)
    requires k < |s| && !IsSpace(s[k])
    requires forall i :: 0 <= i < k ==> IsSpace(s[i])
    ensures TrimStart(s) == s[k..]
    decreases k
  {
    if k > 0 {
      BlankThenIdle(s[1..], k - 1);
      assert s[1..][k - 1..] == s[k..];
    }
  }

  /** The reference count of the words of a formatted text, read off the
      input: its non-whitespace characters that begin the text (when `open`
      holds) or follow whitespace or a sentence terminator. */
  function WordStarts(s: string, open: bool): nat
    decreases |s|
  {
    if s == [] then 0
    else if IsSpace(s[0]) then WordStarts(s[1..], true)
    else (if open then 1 else 0) + WordStarts(s[1..], IsTerminator(s[0]))
  }

  /** "Format Text" keeps words apart: the formatted text has one word for
      each character of the input that starts it or follows whitespace or a
      terminator. */
  lemma FormatTextWords(s: string)
    ensures WordCount(FormatText(s)) == WordStarts(s, true)
  {
    FormatInOnePass(s);
    TrimKeepsPieceStarts(OnePass(s), IsSpace);
    OnePassWords(s, true);
  }

  /** So formatting never merges two words: it can only split them. */
  lemma FormatNeverMergesWords(s: string)
    ensures WordCount(s) <= WordCount(FormatText(s))
  {
    FormatTextWords(s);
    FewerWordStarts(s, true, true);
  }

  lemma {:induction false} OnePassWords(s: string, open: bool)
    ensures PieceStarts(OnePass(s), IsSpace, open) == WordStarts(s, open)
    decreases |s|
  {
    if s == [] {
    } else if IsSpace(s[0]) {
      var t := TrimStart(s);
      var r := OnePass(s);
      assert IsSpace(' ');
      assert r == [' '] + OnePass(t) && r[1..] == OnePass(t);
      OnePassWords(t, true);
      WordStartsTrimStart(s[1..]);
    } else if IsTerminator(s[0]) {
      var t := TrimStart(s[1..]);
      var r := OnePass(s);
      assert IsSpace('\n');
      assert r == [s[0], '\n', '\n'] + OnePass(t);
      var r1 := r[1..];
      var r2 := r1[1..];
      assert r1[0] == '\n' && r2[0] == '\n' && r2[1..] == OnePass(t);
      assert PieceStarts(r, IsSpace, open) == (if open then 1 else 0) + PieceStarts(r1, IsSpace, false);
      assert PieceStarts(r1, IsSpace, false) == PieceStarts(r2, IsSpace, true);
      assert PieceStarts(r2, IsSpace, true) == PieceStarts(OnePass(t), IsSpace, true);
      OnePassWords(t, true);
      WordStartsTrimStart(s[1..]);
    } else {
      var r := OnePass(s);
      assert r == [s[0]] + OnePass(s[1..]) && r[1..] == OnePass(s[1..]);
      OnePassWords(s[1..], false);
    }
  }

  /** A leading blank run makes no difference once a word may start. */
  lemma {:induction false} WordStartsTrimStart(s: string)
    ensures WordStarts(TrimStart(s), true) == WordStarts(s, true)
    decreases |s|
  {
    if s != [] && IsSpace(s[0]) {
      WordStartsTrimStart(s[1..]);
    }
  }

  /** Every word start of the input is also a start of the reference count. */
  lemma {:induction false} FewerWordStarts(s: string, open: bool, open': bool)
    requires open ==> open'
    ensures PieceStarts(s, IsSpace, open) <= WordStarts(s, open')
    decreases |s|
  {
    if s != [] {
      if IsSpace(s[0]) {
        FewerWordStarts(s[1..], true, true);
      } else {
        FewerWordStarts(s[1..], false, IsTerminator(s[0]));
      }
    }
  }

  /** "Format Text" does not recompute the word count, and the count can
      change: "a.b" has one word, its formatted form "a.\n\nb" has two. */
  lemma FormatChangesWordCount()
    ensures WordCount("a.b") == 1
    ensures FormatText("a.b") == "a.\n\nb"
    ensures WordCount(FormatText("a.b")) == 2
  {
    WordsOfUnformattedSample();
    FormatOfSample();
    var r := "a.\n\nb";
    assert r == "a." + ['\n'] + "\nb";
    WordCountJoin("a.", '\n', "\nb");
    WordsOfFormattedSample();
  }

  lemma WordsOfUnformattedSample()
    ensures WordCount("a.b") == 1
  {
    var s := "a.b";
    assert !IsSpace('a') && !IsSpace('.') && !IsSpace('b');
    assert s[1..] == ".b" && s[2..] == "b" && "b"[1..] == [];
  }

  lemma FormatOfSample()
    ensures FormatText("a.b") == "a.\n\nb"
  {
    var s := "a.b";
    assert !IsSpace('a') && !IsSpace('.') && !IsSpace('b');
    assert s[1..] == ".b" && s[2..] == "b" && ".b"[1..] == "b" && "b"[1..] == [];
    assert TrimStart("b") == "b";
    assert OnePass("b") == "b";
    assert OnePass(".b") == ".\n\nb";
    assert OnePass(s) == "a.\n\nb";
    FormatInOnePass(s);
    TrimStartIdle("a.\n\nb");
    TrimEndIdle("a.\n\nb");
  }

  lemma WordsOfFormattedSample()
    ensures WordCount("a.") == 1 && WordCount("\nb") == 1
  {
    assert !IsSpace('a') && !IsSpace('.') && !IsSpace('b') && IsSpace('\n');
    assert "a."[1..] == "." && "."[1..] == [];
    assert "\nb"[1..] == "b" && "b"[1..] == [];
  }
}
