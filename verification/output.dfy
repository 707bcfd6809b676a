/**
 The one line etrace writes to standard output per resolved exec event,
 `[<pid>] <command line>`, with the pid written in decimal as
 `std::ostream << pid_t` writes it.
 */
module Output {

  datatype Option<T> = None | Some(value: T)

  /** A reported exec: the subject pid and its displayed command line. */
  datatype OutLine = OutLine(pid: int, text: string)

  predicate IsDigit(c: char)
  {
    '0' <= c <= '9'
  }

  predicate AllDigits(s: string)
  {
    forall i :: 0 <= i < |s| ==> IsDigit(s[i])
  }

  function DigitChar(d: nat): (c: char)
    requires d < 10
    ensures IsDigit(c)
  {
    (d + '0' as int) as char
  }

  function DigitValue(c: char): (d: nat)
    requires IsDigit(c)
    ensures d < 10
    ensures DigitChar(d) == c
  {
    c as int - '0' as int
  }

  /** The decimal digits of `n`, most significant first, without leading zeros. */
  function NatDecimal(n: nat): (r: string)
    ensures |r| >= 1
    ensures AllDigits(r)
    ensures |r| > 1 ==> r[0] != '0'
    ensures r == "0" <==> n == 0
    decreases n
  {
    if n < 10 then [DigitChar(n)] else NatDecimal(n / 10) + [DigitChar(n % 10)]
  }

  /** The value of a string of decimal digits. */
  function NatValue(s: string): nat
    requires AllDigits(s)
    decreases |s|
  {
    if |s| == 0 then 0 else NatValue(s[..|s| - 1]) * 10 + DigitValue(s[|s| - 1])
  }

  lemma {:induction false} NatValueOfDecimal(n: nat)
    ensures NatValue(NatDecimal(n)) == n
    decreases n
  {
    var r := NatDecimal(n);
    if n >= 10 {
      NatValueOfDecimal(n / 10);
      assert r[..|r| - 1] == NatDecimal(n / 10);
    }
  }

  /** How `<<` writes a signed integer. */
  function Decimal(n: int): (r: string)
    ensures |r| >= 1
    ensures n >= 0 ==> AllDigits(r)
    ensures n < 0 ==> r[0] == '-' && AllDigits(r[1..]) && |r| >= 2
    ensures n >= 0 && |r| > 1 ==> r[0] != '0'
    ensures n < 0 ==> r[1] != '0'
  {
    if n < 0 then "-" + NatDecimal(-n) else NatDecimal(n)
  }

  /** Decimal digits in canonical form: at least one, and no leading zero unless the number is 0. */
  predicate Canonical(s: string)
  {
    |s| >= 1 && AllDigits(s) && (|s| > 1 ==> s[0] != '0')
  }

  /** Reads back a string written by Decimal; anything else, "07" and "-0" included, is rejected. */
  function DecimalValue(s: string): Option<int>
  {
    if |s| >= 2 && s[0] == '-' && Canonical(s[1..]) && s[1..] != "0" then Some(-(NatValue(s[1..]) as int))
    else if Canonical(s) then Some(NatValue(s))
    else None
  }

  /** Digits that do not start with '0' have a positive value. */
  lemma {:induction false} LeadingDigitPositive(s: string)
    requires |s| >= 1 && AllDigits(s) && s[0] != '0'
    ensures NatValue(s) >= 1
    decreases |s|
  {
    if |s| > 1 {
      LeadingDigitPositive(s[..|s| - 1]);
    }
  }

  /** Canonical digits are exactly what NatDecimal writes for their value. */
  lemma {:induction false} NatDecimalOfValue(s: string)
    requires Canonical(s)
    ensures NatDecimal(NatValue(s)) == s
    decreases |s|
  {
    if |s| > 1 {
      var p := s[..|s| - 1];
      var d := DigitValue(s[|s| - 1]);
      assert Canonical(p) by { assert p[0] == s[0]; }
      NatDecimalOfValue(p);
      LeadingDigitPositive(p);
      var n := NatValue(s);
      assert n == NatValue(p) * 10 + d;
      assert n / 10 == NatValue(p) && n % 10 == d;
      assert s == p + [s[|s| - 1]];
    }
  }

  lemma DecimalRoundTrip(n: int)
    ensures DecimalValue(Decimal(n)) == Some(n)
  {
    if n < 0 {
      NatValueOfDecimal(-n);
      assert Decimal(n)[1..] == NatDecimal(-n);
      assert !IsDigit(Decimal(n)[0]);
      assert !Canonical(Decimal(n)) by { assert !IsDigit(Decimal(n)[0]); }
    } else {
      NatValueOfDecimal(n);
    }
  }

  /** Decimal writes one string per pid: every string DecimalValue accepts is the one Decimal writes for its value. */
  lemma DecimalIsUnique(s: string, n: int)
    requires DecimalValue(s) == Some(n)
    ensures Decimal(n) == s
  {
    if |s| >= 2 && s[0] == '-' && Canonical(s[1..]) && s[1..] != "0" {
      NatDecimalOfValue(s[1..]);
      LeadingDigitPositive(s[1..]);
      assert s == "-" + s[1..];
    } else {
      NatDecimalOfValue(s);
    }
  }

  /** The text written for one reported exec (without the newline std::endl adds). */
  function Render(l: OutLine): (r: string)
    ensures |r| >= |l.text| + 4 && r[0] == '['
    ensures r[1..|r| - |l.text| - 2] == Decimal(l.pid)
    ensures r[|r| - |l.text| - 2..|r| - |l.text|] == "] "
    ensures r[|r| - |l.text|..] == l.text
  {
    "[" + Decimal(l.pid) + "] " + l.text
  }

  /** Index of the first ']' in `s` at or after `from`, or |s| if there is none. */
  function FindClose(s: string, from: nat): (k: nat)
    requires from <= |s|
    ensures from <= k <= |s|
    ensures k < |s| ==> s[k] == ']'
    ensures forall j :: from <= j < k ==> s[j] != ']'
    decreases |s| - from
  {
    if from == |s| then |s| else if s[from] == ']' then from else FindClose(s, from + 1)
  }

  /** Splits a printed line back into the pid and the command line. */
  function ParseLine(s: string): Option<OutLine>
  {
    if |s| < 1 || s[0] != '[' then None
    else
      var k := FindClose(s, 1);
      if k + 1 >= |s| || s[k + 1] != ' ' then None
      else
        match DecimalValue(s[1..k])
        case None => None
        case Some(pid) => Some(OutLine(pid, s[k + 2..]))
  }

  /**
   A printed line identifies the pid and the command line it reports, even
   when the command line itself contains brackets or spaces.
   */
  lemma ParseRender(l: OutLine)
    ensures ParseLine(Render(l)) == Some(l)
  {
    var d := Decimal(l.pid);
    var s := Render(l);
    assert s == "[" + d + "] " + l.text;
    forall j | 1 <= j < 1 + |d|
      ensures s[j] != ']'
    {
      assert s[j] == d[j - 1];
      if l.pid < 0 && j > 1 {
        assert d[j - 1] == d[1..][j - 2];
      }
    }
    assert s[1 + |d|] == ']';
    assert FindClose(s, 1) == 1 + |d|;
    assert s[1..1 + |d|] == d;
    assert s[1 + |d| + 2..] == l.text;
    DecimalRoundTrip(l.pid);
  }
}
