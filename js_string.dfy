/**
  The JavaScript string primitives the panels rely on: the whitespace class
  shared by `\s` in regular expressions and by `String.prototype.trim`, and the
  three trims.
*/
module JsString {

  /** Whitespace as ECMAScript defines it (the WhiteSpace and LineTerminator
      code points): exactly what `\s` matches and what `trim` removes. */
  const SpaceChars: set<char> := {
    '\t', '\n', '\U{000B}', '\U{000C}', '\r', ' ', '\U{00A0}', '\U{1680}',
    '\U{2000}', '\U{2001}', '\U{2002}', '\U{2003}', '\U{2004}', '\U{2005}',
    '\U{2006}', '\U{2007}', '\U{2008}', '\U{2009}', '\U{200A}',
    '\U{2028}', '\U{2029}', '\U{202F}', '\U{205F}', '\U{3000}', '\U{FEFF}'
  }

  predicate IsSpace(c: char) {
    c in SpaceChars
  }

  /** A string with no character other than whitespace (the empty string too). */
  predicate Blank(s: string) {
    forall i :: 0 <= i < |s| ==> IsSpace(s[i])
  }

  /** Drops the leading run of characters that satisfy `sep`. */
  function DropRun(s: string, sep: char -> bool): (r: string)
    ensures |r| <= |s| && r == s[|s| - |r|..]
    ensures forall i :: 0 <= i < |s| - |r| ==> sep(s[i])
    ensures r == [] || !sep(r[0])
    ensures s != [] && sep(s[0]) ==> |r| < |s|
    decreases |s|
  {
    if s != [] && sep(s[0]) then DropRun(s[1..], sep) else s
  }

  /** `s.trimStart()`. */
  function TrimStart(s: string): (r: string)
    ensures |r| <= |s|
    ensures r == [] || !IsSpace(r[0])
    ensures s != [] && IsSpace(s[0]) ==> |r| < |s|
    decreases |s|
  {
    if s != [] && IsSpace(s[0]) then TrimStart(s[1..]) else s
  }

  /** `s.trimEnd()`. */
  function TrimEnd(s: string): (r: string)
    ensures |r| <= |s|
    ensures r == [] || !IsSpace(r[|r| - 1])
    decreases |s|
  {
    if s != [] && IsSpace(s[|s| - 1]) then TrimEnd(s[..|s| - 1]) else s
  }

  /** `s.trim()`: empty exactly when `s` is blank, and otherwise neither starts
      nor ends with whitespace. */
  function Trim(s: string): (r: string)
    ensures (r == []) == Blank(s)
    ensures r != [] ==> !IsSpace(r[0]) && !IsSpace(r[|r| - 1])
  {
    TrimShape(s);
    TrimEnd(TrimStart(s))
  }

  lemma TrimShape(s: string)
    ensures var r := TrimEnd(TrimStart(s));
      && (r == []) == Blank(s)
      && (r != [] ==> !IsSpace(r[0]) && !IsSpace(r[|r| - 1]))
  {
    var m := TrimStart(s);
    TrimStartEmpty(s);
    TrimEndEmpty(m);
    if m != [] {
      assert !Blank(m);
      TrimEndHead(m);
    }
  }

  /** `trimStart` removes a blank prefix and keeps the rest. */
  lemma {:induction false} TrimStartSplit(s: string)
    ensures var k := |s| - |TrimStart(s)|;
      s[k..] == TrimStart(s) && Blank(s[..k])
    decreases |s|
  {
    if s != [] && IsSpace(s[0]) {
      TrimStartSplit(s[1..]);
      var k := |s| - |TrimStart(s)|;
      assert s[1..][k - 1..] == s[k..];
      assert forall i :: 1 <= i < k ==> s[..k][i] == s[1..][..k - 1][i - 1];
    }
  }

  /** `trimEnd` removes a blank suffix and keeps the rest. */
  lemma {:induction false} TrimEndSplit(s: string)
    ensures var k := |TrimEnd(s)|;
      s[..k] == TrimEnd(s) && Blank(s[k..])
    decreases |s|
  {
    if s != [] && IsSpace(s[|s| - 1]) {
      var n := |s| - 1;
      TrimEndSplit(s[..n]);
      var k := |TrimEnd(s)|;
      assert s[..n][..k] == s[..k];
      assert forall i :: 0 <= i < n - k ==> s[k..][i] == s[..n][k..][i];
    }
  }

  /** `trimEnd` keeps a first character that is not whitespace. */
  lemma TrimEndHead(s: string)
    requires s != [] && !IsSpace(s[0])
    ensures TrimEnd(s) != [] && TrimEnd(s)[0] == s[0]
  {
    TrimEndSplit(s);
  }

  lemma TrimStartEmpty(s: string)
    ensures (TrimStart(s) == []) == Blank(s)
  {
    TrimStartSplit(s);
    var m := TrimStart(s);
    if m != [] {
      assert s[|s| - |m|] == m[0];
    }
  }

  lemma TrimEndEmpty(s: string)
    ensures (TrimEnd(s) == []) == Blank(s)
  {
    TrimEndSplit(s);
    var e := TrimEnd(s);
    if e != [] {
      assert s[|e| - 1] == e[|e| - 1];
    }
  }

  /** `trimStart` skips a leading whitespace character. */
  lemma TrimStartCons(c: char, x: string)
    requires IsSpace(c)
    ensures TrimStart([c] + x) == TrimStart(x)
  {
    assert ([c] + x)[1..] == x;
  }

  /** `trimStart` leaves alone a text that does not start with whitespace. */
  lemma TrimStartIdle(s: string)
    requires s == [] || !IsSpace(s[0])
    ensures TrimStart(s) == s
  {
  }

  /** `trimEnd` leaves alone a text that does not end with whitespace. */
  lemma TrimEndIdle(s: string)
    requires s == [] || !IsSpace(s[|s| - 1])
    ensures TrimEnd(s) == s
  {
  }

  /** The non-whitespace characters of `s`, in order. */
  function NonSpace(s: string): string {
    if s == [] then [] else (if IsSpace(s[0]) then [] else [s[0]]) + NonSpace(s[1..])
  }

  lemma {:induction false} NonSpaceConcat(a: string, b: string)
    ensures NonSpace(a + b) == NonSpace(a) + NonSpace(b)
    decreases |a|
  {
    if a == [] {
      assert a + b == b;
    } else {
      assert (a + b)[1..] == a[1..] + b;
      NonSpaceConcat(a[1..], b);
    }
  }

  lemma {:induction false} NonSpaceOfBlank(s: string)
    requires Blank(s)
    ensures NonSpace(s) == []
    decreases |s|
  {
    if s != [] {
      NonSpaceOfBlank(s[1..]);
    }
  }

  /** Trimming never loses a non-whitespace character. */
  lemma NonSpaceTrim(s: string)
    ensures NonSpace(Trim(s)) == NonSpace(s)
  {
    NonSpaceTrimStart(s);
    NonSpaceTrimEnd(TrimStart(s));
  }

  lemma NonSpaceTrimStart(s: string)
    ensures NonSpace(TrimStart(s)) == NonSpace(s)
  {
    TrimStartSplit(s);
    var m := TrimStart(s);
    var lead := s[..|s| - |m|];
    assert s == lead + m;
    NonSpaceConcat(lead, m);
    NonSpaceOfBlank(lead);
  }

  lemma NonSpaceTrimEnd(s: string)
    ensures NonSpace(TrimEnd(s)) == NonSpace(s)
  {
    TrimEndSplit(s);
    var e := TrimEnd(s);
    var tail := s[|e|..];
    assert s == e + tail;
    NonSpaceConcat(e, tail);
    NonSpaceOfBlank(tail);
  }

  /** Whitespace appended after a non-blank text is all that `trimEnd` removes. */
  lemma {:induction false} TrimEndConcat(a: string, b: string)
    requires !Blank(b)
    ensures TrimEnd(a + b) == a + TrimEnd(b)
    decreases |b|
  {
    var n := |b| - 1;
    if IsSpace(b[n]) {
      assert (a + b)[..|a + b| - 1] == a + b[..n];
      assert !Blank(b[..n]) by {
        var k :| 0 <= k < |b| && !IsSpace(b[k]);
        assert b[..n][k] == b[k];
      }
      TrimEndConcat(a, b[..n]);
    }
  }

  /** A blank suffix makes no difference to `trimEnd`. */
  lemma {:induction false} TrimEndBlankSuffix(a: string, b: string)
    requires Blank(b)
    ensures TrimEnd(a + b) == TrimEnd(a)
    decreases |b|
  {
    if b != [] {
      var n := |b| - 1;
      assert (a + b)[..|a + b| - 1] == a + b[..n];
      TrimEndBlankSuffix(a, b[..n]);
    } else {
      assert a + b == a;
    }
  }
}
