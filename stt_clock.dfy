/**
  The session clock of the transcription panel: `formatTime`
  (src/components/STT.jsx:274-278) renders a whole number of seconds as
  minutes, a colon and the seconds padded to two digits. It is proved
  against a reader of that "M:SS" form, which gives every count back.
*/
module SttClock {
  import opened Wrappers

  predicate IsDigit(c: char) {
    '0' <= c <= '9'
  }

  predicate AllDigits(d: string) {
    forall i :: 0 <= i < |d| ==> IsDigit(d[i])
  }

  function DigitChar(v: nat): (c: char)
    requires v < 10
    ensures IsDigit(c)
  {
    (48 + v) as char
  }

  function DigitValue(c: char): (v: nat)
    requires IsDigit(c)
    ensures v < 10 && DigitChar(v) == c
  {
    c as int - 48
  }

  /** `n.toString()` for a non-negative integer: its decimal digits, without
      leading zeros. */
  function Decimal(n: nat): (r: string)
    ensures r != [] && AllDigits(r)
    ensures |r| > 1 ==> r[0] != '0'
    ensures n < 10 <==> |r| == 1
    decreases n
  {
    if n < 10 then [DigitChar(n)] else Decimal(n / 10) + [DigitChar(n % 10)]
  }

  /** The number a string of decimal digits denotes. */
  function Value(d: string): nat
    requires AllDigits(d)
    decreases |d|
  {
    if d == [] then 0 else Value(d[..|d| - 1]) * 10 + DigitValue(d[|d| - 1])
  }

  /** Reading the digits back gives the number. */
  lemma {:induction false} ValueDecimal(n: nat)
    ensures Value(Decimal(n)) == n
    decreases n
  {
    if n >= 10 {
      var d := Decimal(n);
      assert d[..|d| - 1] == Decimal(n / 10);
      ValueDecimal(n / 10);
    }
  }

  /** `s.padStart(width, fill)` with a one-character filler. */
  function PadStart(s: string, width: nat, fill: char): (r: string)
    ensures |r| == if |s| >= width then |s| else width
    ensures r[|r| - |s|..] == s
    ensures forall i :: 0 <= i < |r| - |s| ==> r[i] == fill
  {
    if |s| >= width then s else seq(width - |s|, _ => fill) + s
  }

  /** `formatTime(seconds)`: whole minutes, a colon, and the remaining
      seconds as two digits. */
  function FormatTime(seconds: nat): string {
    Decimal(seconds / 60) + ":" + PadStart(Decimal(seconds % 60), 2, '0')
  }

  /** The reference reading of an "M:SS" clock: one or more digits, a colon
      and exactly two digits below 60. */
  function ReadClock(r: string): Option<nat> {
    if |r| >= 4 && r[|r| - 3] == ':' then
      var mins := r[..|r| - 3];
      var secs := r[|r| - 2..];
      if AllDigits(mins) && AllDigits(secs) && Value(secs) < 60 then
        Some(Value(mins) * 60 + Value(secs))
      else None
    else None
  }

  /** The seconds field is always two digits, and has the remainder's value. */
  lemma SecondsField(k: nat)
    requires k < 60
    ensures var p := PadStart(Decimal(k), 2, '0');
      |p| == 2 && AllDigits(p) && Value(p) == k
  {
    var d := Decimal(k);
    var p := PadStart(d, 2, '0');
    ValueDecimal(k);
    if k < 10 {
      assert p == ['0'] + d;
      assert p[..1] == ['0'];
      assert Value(['0']) == 0 by {
        assert ['0'][..0] == [];
      }
    } else {
      assert 10 <= k < 100;
      assert |d| == 2 by {
        assert Decimal(k / 10) == [DigitChar(k / 10)];
      }
    }
  }

  /** Every clock reading is an "M:SS" form, and it gives the seconds back. */
  lemma ReadFormatTime(seconds: nat)
    ensures ReadClock(FormatTime(seconds)) == Some(seconds)
  {
    var q, k := seconds / 60, seconds % 60;
    var r := FormatTime(seconds);
    FormatTimeParts(seconds, q, k);
    ReadBack(r, q, k);
    assert q * 60 + k == seconds;
  }

  /** The clock names the quotient and the remainder by sixty. */
  lemma FormatTimeParts(seconds: nat, q: nat, k: nat)
    requires q == seconds / 60 && k == seconds % 60
    ensures FormatTime(seconds) == Decimal(q) + ":" + PadStart(Decimal(k), 2, '0')
  {
  }

  /** A clock built from whole minutes and fewer than sixty seconds reads
      back as their total. */
  lemma ReadBack(r: string, q: nat, k: nat)
    requires k < 60 && r == Decimal(q) + ":" + PadStart(Decimal(k), 2, '0')
    ensures ReadClock(r) == Some(q * 60 + k)
  {
    var m, p := Decimal(q), PadStart(Decimal(k), 2, '0');
    SecondsField(k);
    ValueDecimal(q);
    ReadClockOf(r, m, p, q, k);
  }

  /** The reader takes an "M:SS" form apart at its colon. */
  lemma ReadClockOf(r: string, m: string, p: string, mins: nat, secs: nat)
    requires m != [] && AllDigits(m) && Value(m) == mins
    requires |p| == 2 && AllDigits(p) && Value(p) == secs && secs < 60
    requires r == m + ":" + p
    ensures ReadClock(r) == Some(mins * 60 + secs)
  {
    assert r[..|r| - 3] == m;
    assert r[|r| - 2..] == p;
  }

  /** Different times never show the same clock. */
  lemma FormatTimeInjective(a: nat, b: nat)
    requires FormatTime(a) == FormatTime(b)
    ensures a == b
  {
    ReadFormatTime(a);
    ReadFormatTime(b);
  }
}
