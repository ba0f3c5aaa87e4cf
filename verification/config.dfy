/**
 * The plugin's settings.
 *
 * The configuration object stores one integer, `title` (compare titles), and
 * reads it back from the host's setup file with `SetupParse`.  The matcher and
 * the scanner also consult a "show hidden" switch that the configuration class
 * does not declare; both integers reach them here as a `Settings` value.
 */
module Config {

  /**
   * The two settings the duplicate detection depends on, as the integers the
   * plugin stores; each switch is on when its integer is not zero.
   */
  datatype Settings = Settings(title: int, hidden: int)
  {
    const compareTitles: bool := title != 0
    const showHidden: bool := hidden != 0
  }

  // ---- strcasecmp: equality ignoring ASCII letter case ----

  function Lower(c: char): (d: char)
    ensures 'A' <= c <= 'Z' ==> d as int == c as int + 32
    ensures !('A' <= c <= 'Z') ==> d == c
  {
    if 'A' <= c <= 'Z' then (c as int + 32) as char else c
  }

  /** `strcasecmp(a, b) == 0`. */
  predicate EqualIgnoringCase(a: string, b: string)
  {
    |a| == |b| && forall i :: 0 <= i < |a| ==> Lower(a[i]) == Lower(b[i])
  }

  // ---- atoi ----

  /** The characters C's `isspace` accepts in the "C" locale. */
  predicate IsSpace(c: char)
  {
    c == ' ' || c == '\t' || c == '\n' || c == '\r' || c == '\U{B}' || c == '\U{C}'
  }

  predicate IsDigit(c: char)
  {
    '0' <= c <= '9'
  }

  function DigitValue(c: char): (d: nat)
    requires IsDigit(c)
    ensures d < 10
  {
    c as int - '0' as int
  }

  /** `s` without its leading white space. */
  function SkipSpace(s: string): (t: string)
    ensures |t| <= |s| && t == s[|s| - |t|..]
    ensures t != [] ==> !IsSpace(t[0])
    ensures forall i :: 0 <= i < |s| - |t| ==> IsSpace(s[i])
  {
    if s != [] && IsSpace(s[0]) then SkipSpace(s[1..]) else s
  }

  /** The longest prefix of `s` made of decimal digits. */
  function LeadingDigits(s: string): (d: string)
    ensures |d| <= |s| && d == s[..|d|]
    ensures forall i :: 0 <= i < |d| ==> IsDigit(d[i])
    ensures |d| < |s| ==> !IsDigit(s[|d|])
  {
    if s != [] && IsDigit(s[0]) then [s[0]] + LeadingDigits(s[1..]) else []
  }

  /** The value of a string of decimal digits, most significant first. */
  function DigitsValue(d: string): nat
    requires forall i :: 0 <= i < |d| ==> IsDigit(d[i])
  {
    if d == [] then 0 else 10 * DigitsValue(d[..|d| - 1]) + DigitValue(d[|d| - 1])
  }

  /**
   * `atoi(s)`: white space, an optional sign, then as many digits as there
   * are.  C leaves overflow undefined; integers here are unbounded.
   */
  function Atoi(s: string): int
  {
    var t := SkipSpace(s);
    if t != [] && t[0] == '-' then -(Magnitude(t[1..]) as int)
    else if t != [] && t[0] == '+' then Magnitude(t[1..])
    else Magnitude(t)
  }

  /** The value of the digits `s` starts with, 0 when there are none. */
  function Magnitude(s: string): nat
  {
    DigitsValue(LeadingDigits(s))
  }

  /** A value that does not start with an integer (after blanks and a sign) parses as 0. */
  lemma AtoiWithoutInteger(s: string)
    requires var t := SkipSpace(s);
      var u := if t != [] && (t[0] == '-' || t[0] == '+') then t[1..] else t;
      u == [] || !IsDigit(u[0])
    ensures Atoi(s) == 0
  {
  }

  /** Decimal representation of a natural number, without sign or leading zeros. */
  function Decimal(n: nat): (s: string)
    ensures |s| >= 1 && IsDigit(s[0])
    ensures forall i :: 0 <= i < |s| ==> IsDigit(s[i])
    decreases n
  {
    var last := ['0' + (n % 10) as char];
    if n < 10 then last else Decimal(n / 10) + last
  }

  lemma {:induction false} DigitsValueDecimal(n: nat)
    ensures DigitsValue(Decimal(n)) == n
    decreases n
  {
    var s := Decimal(n);
    if n >= 10 {
      DigitsValueDecimal(n / 10);
      assert s[..|s| - 1] == Decimal(n / 10);
    }
  }

  /** Round trip: `atoi` reads back every decimal numeral, with or without a minus sign. */
  lemma AtoiDecimal(n: nat)
    ensures Atoi(Decimal(n)) == n
    ensures Atoi("-" + Decimal(n)) == -(n as int)
  {
    AtoiDigits(Decimal(n));
    DigitsValueDecimal(n);
    var m := "-" + Decimal(n);
    assert m[1..] == Decimal(n);
    AtoiNegated(m);
  }

  /** A string of digits starting with a digit reads as its value. */
  lemma AtoiDigits(s: string)
    requires s != [] && forall i :: 0 <= i < |s| ==> IsDigit(s[i])
    ensures Atoi(s) == DigitsValue(s)
  {
    assert IsDigit(s[0]);
    assert !IsSpace(s[0]) && s[0] != '-' && s[0] != '+';
    assert SkipSpace(s) == s;
    AllDigitsLead(s);
  }

  /** A minus sign followed by digits reads as the negated value. */
  lemma AtoiNegated(m: string)
    requires |m| >= 2 && m[0] == '-' && forall i :: 1 <= i < |m| ==> IsDigit(m[i])
    ensures Atoi(m) == -(DigitsValue(m[1..]) as int)
  {
    AllDigitsLead(m[1..]);
    assert !IsSpace(m[0]);
    assert SkipSpace(m) == m;
  }

  lemma {:induction false} AllDigitsLead(s: string)
    requires forall i :: 0 <= i < |s| ==> IsDigit(s[i])
    ensures LeadingDigits(s) == s
  {
    if s != [] {
      AllDigitsLead(s[1..]);
    }
  }

  /** cDuplicatesConfig. */
  class DuplicatesConfig {
    var title: int

    /** Title comparison is on by default. */
    constructor ()
      ensures title == 1
    {
      title := 1;
    }

    /**
     * Accepts the setting `title` in any letter case and stores the integer
     * at the start of `value`; any other name is refused and nothing changes.
     */
    method SetupParse(name: string, value: string) returns (ok: bool)
      modifies this
      ensures ok <==> EqualIgnoringCase(name, "title")
      ensures ok ==> title == Atoi(value)
      ensures !ok ==> title == old(title)
    {
      if EqualIgnoringCase(name, "title") {
        title := Atoi(value);
      } else {
        return false;
      }
      return true;
    }
  }
}
