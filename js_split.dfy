/**
  `String.prototype.split` in the two forms the transcription panel uses: with
  a regular expression that matches a run of one character class (`/\s+/`,
  `/[.!?]+/`), and with a single character (`' '`). Beside each, the reference
  count it is proved against.
*/
module JsSplit {
  import opened JsString

  /** `s.split(/[C]+/)` where `sep` is the class C: the pieces between maximal
      runs of separator characters. A run at either end leaves an empty piece
      there, and the empty string splits into one empty piece. */
  function SplitRuns(s: string, sep: char -> bool): (r: seq<string>)
    ensures |r| >= 1
    ensures forall i, j :: 0 <= i < |r| && 0 <= j < |r[i]| ==> !sep(r[i][j])
    decreases |s|
  {
    if s == [] then [""]
    else if sep(s[0]) then [""] + SplitRuns(DropRun(s, sep), sep)
    else
      var rest := SplitRuns(s[1..], sep);
      [[s[0]] + rest[0]] + rest[1..]
  }

  /** `pieces.filter(p => p.length > 0)`. */
  function NonEmpty(pieces: seq<string>): seq<string> {
    if pieces == [] then []
    else (if |pieces[0]| > 0 then [pieces[0]] else []) + NonEmpty(pieces[1..])
  }

  /** `pieces.filter(p => p.trim())`: keeps the pieces that are not blank. */
  function NonBlank(pieces: seq<string>): seq<string> {
    if pieces == [] then []
    else (if Trim(pieces[0]) != [] then [pieces[0]] else []) + NonBlank(pieces[1..])
  }

  /** The reference count: the characters of `s` that are neither whitespace
      nor separators and are the first such character since the start (when
      `open` holds) or since the latest separator. */
  function PieceStarts(s: string, sep: char -> bool, open: bool): nat
    decreases |s|
  {
    if s == [] then 0
    else if sep(s[0]) then PieceStarts(s[1..], sep, true)
    else if IsSpace(s[0]) then PieceStarts(s[1..], sep, open)
    else (if open then 1 else 0) + PieceStarts(s[1..], sep, false)
  }

  /** The `open` flag that `PieceStarts` carries past the end of `s`. */
  function OpenAfter(s: string, sep: char -> bool, open: bool): bool
    decreases |s|
  {
    if s == [] then open
    else OpenAfter(s[1..], sep, if sep(s[0]) then true else if IsSpace(s[0]) then open else false)
  }

  /** Splitting on separator runs and dropping blank pieces leaves exactly as
      many pieces as the reference count finds piece starts. */
  lemma SplitRunsCount(s: string, sep: char -> bool)
    ensures |NonBlank(SplitRuns(s, sep))| == PieceStarts(s, sep, true)
  {
    var r := SplitRuns(s, sep);
    SplitRunsCountFrom(s, sep, true);
    assert r == [r[0]] + r[1..];
    BlankIffTrimEmpty(r[0]);
  }

  lemma {:induction false} SplitRunsCountFrom(s: string, sep: char -> bool, open: bool)
    ensures var r := SplitRuns(s, sep);
      PieceStarts(s, sep, open) == |NonBlank(r[1..])| + (if open && !Blank(r[0]) then 1 else 0)
    decreases |s|
  {
    if s == [] {
    } else if sep(s[0]) {
      var d := DropRun(s, sep);
      var r' := SplitRuns(d, sep);
      DropRunStarts(s, sep, open);
      SplitRunsCountFrom(d, sep, true);
      assert ([""] + r')[1..] == r';
      assert r' == [r'[0]] + r'[1..];
      BlankIffTrimEmpty(r'[0]);
    } else {
      var rest := SplitRuns(s[1..], sep);
      var r := [[s[0]] + rest[0]] + rest[1..];
      assert r[1..] == rest[1..];
      if IsSpace(s[0]) {
        SplitRunsCountFrom(s[1..], sep, open);
        assert Blank([s[0]] + rest[0]) == Blank(rest[0]) by {
          assert forall k :: 0 <= k < |rest[0]| ==> ([s[0]] + rest[0])[k + 1] == rest[0][k];
        }
      } else {
        SplitRunsCountFrom(s[1..], sep, false);
        assert !Blank(r[0]) by { assert r[0][0] == s[0]; }
      }
    }
  }

  lemma BlankIffTrimEmpty(p: string)
    ensures Blank(p) <==> Trim(p) == []
  {
  }

  /** A leading separator run only re-arms the `open` flag. */
  lemma {:induction false} DropRunStarts(s: string, sep: char -> bool, open: bool)
    requires s != [] && sep(s[0])
    ensures PieceStarts(s, sep, open) == PieceStarts(DropRun(s, sep), sep, true)
    decreases |s|
  {
    if s[1..] != [] && sep(s[1]) {
      DropRunStarts(s[1..], sep, true);
    }
  }

  /** The reference count is additive over concatenation. */
  lemma {:induction false} PieceStartsConcat(a: string, b: string, sep: char -> bool, open: bool)
    ensures PieceStarts(a + b, sep, open)
         == PieceStarts(a, sep, open) + PieceStarts(b, sep, OpenAfter(a, sep, open))
    decreases |a|
  {
    if a == [] {
      assert a + b == b;
    } else {
      assert (a + b)[1..] == a[1..] + b;
      var f := if sep(a[0]) then true else if IsSpace(a[0]) then open else false;
      PieceStartsConcat(a[1..], b, sep, f);
    }
  }

  /** Whitespace starts no piece and keeps an `open` flag set. */
  lemma {:induction false} BlankStarts(s: string, sep: char -> bool, open: bool)
    requires Blank(s)
    ensures PieceStarts(s, sep, open) == 0
    ensures open ==> OpenAfter(s, sep, open)
    decreases |s|
  {
    if s != [] {
      BlankStarts(s[1..], sep, if sep(s[0]) then true else open);
    }
  }

  /** Trimming the text first does not change the count. */
  lemma TrimKeepsPieceStarts(s: string, sep: char -> bool)
    ensures PieceStarts(Trim(s), sep, true) == PieceStarts(s, sep, true)
  {
    TrimStartSplit(s);
    var m := TrimStart(s);
    var lead := s[..|s| - |m|];
    assert s == lead + m;
    PieceStartsConcat(lead, m, sep, true);
    BlankStarts(lead, sep, true);
    TrimEndSplit(m);
    var e := TrimEnd(m);
    assert m == e + m[|e|..];
    PieceStartsConcat(e, m[|e|..], sep, true);
    BlankStarts(m[|e|..], sep, OpenAfter(e, sep, true));
  }

  /** On pieces free of whitespace, "non-empty" and "not blank" agree. */
  lemma {:induction false} NonEmptyIsNonBlank(pieces: seq<string>)
    requires forall i, j :: 0 <= i < |pieces| && 0 <= j < |pieces[i]| ==> !IsSpace(pieces[i][j])
    ensures NonEmpty(pieces) == NonBlank(pieces)
    decreases |pieces|
  {
    if pieces != [] {
      var p := pieces[0];
      assert |p| > 0 <==> Trim(p) != [] by {
        if |p| > 0 {
          assert !IsSpace(p[0]);
          assert !Blank(p);
        }
      }
      var tail := pieces[1..];
      assert forall i, j :: 0 <= i < |tail| && 0 <= j < |tail[i]| ==> !IsSpace(tail[i][j]) by {
        forall i, j | 0 <= i < |tail| && 0 <= j < |tail[i]| ensures !IsSpace(tail[i][j]) {
          assert tail[i] == pieces[i + 1];
        }
      }
      NonEmptyIsNonBlank(tail);
    }
  }

  /** `s.split(c)` for a one-character separator `c`: one more piece than `s`
      has occurrences of `c`. */
  function SplitAt(s: string, c: char): (r: seq<string>)
    ensures |r| == Occurrences(s, c) + 1
    ensures forall i, j :: 0 <= i < |r| && 0 <= j < |r[i]| ==> r[i][j] != c
    decreases |s|
  {
    if s == [] then [""]
    else
      var rest := SplitAt(s[1..], c);
      if s[0] == c then [""] + rest else [[s[0]] + rest[0]] + rest[1..]
  }

  /** The number of times `c` occurs in `s`. */
  function Occurrences(s: string, c: char): nat
    decreases |s|
  {
    if s == [] then 0 else (if s[0] == c then 1 else 0) + Occurrences(s[1..], c)
  }

  /** `pieces.join(c)`. */
  function Join(pieces: seq<string>, c: char): string
    requires |pieces| >= 1
    decreases |pieces|
  {
    if |pieces| == 1 then pieces[0] else pieces[0] + [c] + Join(pieces[1..], c)
  }

  /** Joining the pieces with the separator gives the text back. */
  lemma {:induction false} JoinSplitAt(s: string, c: char)
    ensures Join(SplitAt(s, c), c) == s
    decreases |s|
  {
    if s != [] {
      var rest := SplitAt(s[1..], c);
      JoinSplitAt(s[1..], c);
      if s[0] == c {
        assert ([""] + rest)[1..] == rest;
      } else {
        var r := [[s[0]] + rest[0]] + rest[1..];
        assert r[1..] == rest[1..];
        if |rest| > 1 {
          assert Join(rest, c) == rest[0] + [c] + Join(rest[1..], c);
        }
      }
    }
  }
}
