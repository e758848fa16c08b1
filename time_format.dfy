/**
 * "HH:MM" strings as the planner reads and writes them: `hhmm_to_minutes`
 * (app.py:38-40) and the two-digit hours-colon-minutes formatting that the
 * itinerary reconstruction uses (app.py:140-141).
 */
module TimeFormat {
  import opened Wrappers

  // ---------------------------------------------------------------------
  // Decimal digits
  // ---------------------------------------------------------------------

  predicate IsDigit(c: char) {
    '0' <= c <= '9'
  }

  predicate AllDigits(s: string) {
    forall i :: 0 <= i < |s| ==> IsDigit(s[i])
  }

  function DigitValue(c: char): nat
    requires IsDigit(c)
  {
    (c as int) - ('0' as int)
  }

  function DigitChar(d: nat): (c: char)
    requires d < 10
    ensures IsDigit(c) && DigitValue(c) == d
  {
    (('0' as int) + d) as char
  }

  /** The value of a string of decimal digits, most significant first. */
  function DigitsValue(s: string): nat
    requires AllDigits(s)
  {
    if |s| == 0 then 0 else DigitsValue(s[..|s| - 1]) * 10 + DigitValue(s[|s| - 1])
  }

  /** `str(x)` for a non-negative integer: its digits with no leading zero. */
  function Decimal(x: nat): (s: string)
    ensures |s| >= 1 && AllDigits(s)
    ensures x < 10 <==> |s| == 1
  {
    if x < 10 then [DigitChar(x)] else Decimal(x / 10) + [DigitChar(x % 10)]
  }

  lemma {:induction false} DecimalValue(x: nat)
    ensures DigitsValue(Decimal(x)) == x
  {
    if x >= 10 {
      var s := Decimal(x);
      assert s[..|s| - 1] == Decimal(x / 10);
      DecimalValue(x / 10);
    }
  }

  // ---------------------------------------------------------------------
  // Python's int() on a string and the ":02" format specifier
  // ---------------------------------------------------------------------

  /**
   * `int(s)`: an optional sign followed by at least one ASCII digit;
   * anything else raises ValueError, modelled as None.
   */
  function ParseInt(s: string): Option<int> {
    if |s| > 0 && (s[0] == '-' || s[0] == '+') then
      if |s| > 1 && AllDigits(s[1..]) then
        var magnitude: int := DigitsValue(s[1..]);
        Some(if s[0] == '-' then -magnitude else magnitude)
      else None
    else if |s| > 0 && AllDigits(s) then Some(DigitsValue(s))
    else None
  }

  /**
   * The `:02` format specifier: zero-padded to at least two characters; a negative number
   * keeps its sign and is padded after it, which for width 2 never adds a zero.
   */
  function Pad2(x: int): (s: string)
    ensures |s| >= 2 && ':' !in s
    ensures 0 <= x < 100 ==> |s| == 2 && AllDigits(s)
  {
    if x < 0 then "-" + Decimal(-x)
    else if x < 10 then "0" + Decimal(x)
    else Decimal(x)
  }

  lemma Pad2Parses(x: int)
    ensures ParseInt(Pad2(x)) == Some(x)
  {
    if x < 0 {
      NegativeParses(-x);
    } else if x < 10 {
      assert Pad2(x) == "0" + Decimal(x);
      PaddedDigitParses(x);
    } else {
      DecimalParses(x);
    }
  }

  lemma DecimalParses(x: nat)
    ensures ParseInt(Decimal(x)) == Some(x)
  {
    DecimalValue(x);
  }

  lemma NegativeParses(m: nat)
    requires m > 0
    ensures ParseInt("-" + Decimal(m)) == Some(-(m as int))
  {
    var s := "-" + Decimal(m);
    assert s[0] == '-' && s[1..] == Decimal(m);
    DecimalValue(m);
  }

  lemma PaddedDigitParses(d: nat)
    requires d < 10
    ensures ParseInt("0" + Decimal(d)) == Some(d)
  {
    var s := "0" + Decimal(d);
    assert s == ['0', DigitChar(d)];
    assert s[..|s| - 1] == "0";
    assert DigitsValue("0") == 0 by { assert "0"[..0] == ""; }
  }

  // ---------------------------------------------------------------------
  // str.split and its inverse
  // ---------------------------------------------------------------------

  /** `s.split(sep)` for a one-character separator. */
  function Split(s: string, sep: char): (parts: seq<string>)
    ensures |parts| >= 1
    ensures forall i :: 0 <= i < |parts| ==> sep !in parts[i]
  {
    if |s| == 0 then [""]
    else
      var rest := Split(s[1..], sep);
      if s[0] == sep then [""] + rest
      else [[s[0]] + rest[0]] + rest[1..]
  }

  /** `sep.join(parts)`. */
  function Join(parts: seq<string>, sep: char): string
    requires |parts| >= 1
  {
    if |parts| == 1 then parts[0] else parts[0] + [sep] + Join(parts[1..], sep)
  }

  /** Text without the separator stays glued to the first part of what follows it. */
  lemma {:induction false} SplitGluesPrefix(a: string, r: string, sep: char)
    requires sep !in a
    ensures Split(a + r, sep) == [a + Split(r, sep)[0]] + Split(r, sep)[1..]
  {
    if a != [] {
      assert (a + r)[0] == a[0] && a[0] != sep;
      assert (a + r)[1..] == a[1..] + r;
      assert sep !in a[1..];
      SplitGluesPrefix(a[1..], r, sep);
      var rest := Split(a[1..] + r, sep);
      assert Split(a + r, sep) == [[a[0]] + rest[0]] + rest[1..];
      assert rest[0] == a[1..] + Split(r, sep)[0];
      assert rest[1..] == Split(r, sep)[1..];
      assert [a[0]] + (a[1..] + Split(r, sep)[0]) == a + Split(r, sep)[0];
    } else {
      assert a + r == r && a + Split(r, sep)[0] == Split(r, sep)[0];
    }
  }

  /** Splitting undoes joining when no part holds the separator. */
  lemma {:induction false} SplitJoin(parts: seq<string>, sep: char)
    requires |parts| >= 1
    requires forall i :: 0 <= i < |parts| ==> sep !in parts[i]
    ensures Split(Join(parts, sep), sep) == parts
  {
    if |parts| == 1 {
      SplitGluesPrefix(parts[0], "", sep);
      assert parts[0] + "" == parts[0];
    } else {
      var tail := Join(parts[1..], sep);
      SplitJoin(parts[1..], sep);
      assert parts[0] + [sep] + tail == parts[0] + ([sep] + tail);
      SplitGluesPrefix(parts[0], [sep] + tail, sep);
      assert ([sep] + tail)[1..] == tail;
      assert parts[0] + "" == parts[0];
    }
  }

  /** Joining undoes splitting. */
  lemma {:induction false} JoinSplit(s: string, sep: char)
    ensures Join(Split(s, sep), sep) == s
  {
    if |s| > 0 {
      var rest := Split(s[1..], sep);
      JoinSplit(s[1..], sep);
      if s[0] == sep {
        assert s == [sep] + s[1..];
      } else if |rest| == 1 {
        assert s == [s[0]] + s[1..];
      } else {
        assert rest[1..][1..] == rest[2..];
        assert Join(rest, sep) == rest[0] + [sep] + Join(rest[1..], sep);
        assert s == [s[0]] + s[1..];
      }
    }
  }

  // ---------------------------------------------------------------------
  // HH:MM
  // ---------------------------------------------------------------------

  /**
   * `hhmm_to_minutes`: split on ':' into exactly two fields and read each
   * with int(); any other shape raises ValueError, modelled as None.
   */
  function HhmmToMinutes(text: string): Option<int> {
    var parts := Split(text, ':');
    if |parts| != 2 then None
    else
      match (ParseInt(parts[0]), ParseInt(parts[1]))
      case (Some(hours), Some(minutes)) => Some(hours * 60 + minutes)
      case _ => None
  }

  /**
   * The start/end formatting of the reconstruction. Python's `//` and `%`
   * by the positive 60 agree with Dafny's Euclidean `/` and `%`.
   */
  function FormatHhmm(minute: int): (text: string)
    ensures |text| >= 5
    ensures 0 <= minute < 6000 ==> |text| == 5
  {
    Pad2(minute / 60) + ":" + Pad2(minute % 60)
  }

  /** Formatting a minute value and reading it back gives the same value. */
  lemma HhmmRoundTrip(minute: int)
    ensures HhmmToMinutes(FormatHhmm(minute)) == Some(minute)
  {
    var hours, minutes := Pad2(minute / 60), Pad2(minute % 60);
    SplitPair(hours, minutes, ':');
    Pad2Parses(minute / 60);
    Pad2Parses(minute % 60);
    assert (minute / 60) * 60 + minute % 60 == minute;
  }

  /** Two separator-free fields joined by the separator split back into those two fields. */
  lemma SplitPair(a: string, b: string, sep: char)
    requires sep !in a && sep !in b
    ensures Split(a + [sep] + b, sep) == [a, b]
  {
    assert Join([a, b], sep) == a + [sep] + b;
    SplitJoin([a, b], sep);
  }
}
