/**
 * The part of the C library that the configuration parsers lean on:
 * `strtoul(str, &end, 10)` in the "C" locale. A C string is the
 * `seq<char>` of its characters before the terminating NUL, so "the end
 * pointer points at the terminator" reads `rest == []`.
 */
module CStrings {
  import opened Width

  /** `ULONG_MAX` of an LP64 C library (64-bit `unsigned long`). */
  const ULONG_MAX: nat := U64_MAX

  predicate IsDigit(c: char) {
    '0' <= c <= '9'
  }

  /** `isspace` in the "C" locale. */
  predicate IsSpace(c: char) {
    c == ' ' || c == '\t' || c == '\n' || c == '\U{B}' || c == '\U{C}' || c == '\r'
  }

  predicate AllDigits(s: seq<char>) {
    forall i :: 0 <= i < |s| ==> IsDigit(s[i])
  }

  function DigitValue(c: char): (d: nat)
    requires IsDigit(c)
    ensures d < 10
  {
    c as int - '0' as int
  }

  function DigitChar(d: nat): (c: char)
    requires d < 10
    ensures IsDigit(c) && DigitValue(c) == d
  {
    ('0' as int + d) as char
  }

  /** The number a string of decimal digits denotes (most significant first). */
  function DecimalValue(ds: seq<char>): nat
    requires AllDigits(ds)
  {
    if ds == [] then 0 else DecimalValue(ds[..|ds| - 1]) * 10 + DigitValue(ds[|ds| - 1])
  }

  /** The shortest decimal spelling of `n`, as `printf("%u")` writes it. */
  function DecimalString(n: nat): (s: seq<char>)
    ensures AllDigits(s) && |s| > 0
  {
    if n < 10 then [DigitChar(n)] else DecimalString(n / 10) + [DigitChar(n % 10)]
  }

  /** Reading back the spelling of `n` gives `n`. */
  lemma {:induction false} DecimalRoundTrip(n: nat)
    ensures DecimalValue(DecimalString(n)) == n
  {
    if n >= 10 {
      var s := DecimalString(n);
      assert s[..|s| - 1] == DecimalString(n / 10);
      DecimalRoundTrip(n / 10);
    }
  }

  /** Length of the longest prefix of `s` made of digits. */
  function DigitRun(s: seq<char>): (k: nat)
    ensures k <= |s|
    ensures forall i :: 0 <= i < k ==> IsDigit(s[i])
    ensures k < |s| ==> !IsDigit(s[k])
  {
    if s == [] || !IsDigit(s[0]) then 0 else 1 + DigitRun(s[1..])
  }

  /** Length of the longest prefix of `s` made of white space. */
  function SpaceRun(s: seq<char>): (k: nat)
    ensures k <= |s|
    ensures forall i :: 0 <= i < k ==> IsSpace(s[i])
    ensures k < |s| ==> !IsSpace(s[k])
  {
    if s == [] || !IsSpace(s[0]) then 0 else 1 + SpaceRun(s[1..])
  }

  /**
   * What `strtoul(str, &end, 10)` gives back: the value, the text from
   * `end` on, and whether it set `errno` to `ERANGE`.
   */
  datatype Conversion = Conversion(value: nat, rest: seq<char>, erange: bool)

  /**
   * `strtoul` in base 10: skip white space, take one optional sign, then the
   * longest run of digits. No digits: value 0 and `end == str`. A magnitude
   * above `ULONG_MAX`: `ULONG_MAX` and `ERANGE`. A minus sign negates the
   * magnitude in unsigned arithmetic.
   */
  function Strtoul(s: seq<char>): (r: Conversion)
    ensures r.value <= ULONG_MAX
    ensures |r.rest| <= |s| && r.rest == s[|s| - |r.rest|..]
    ensures r.erange ==> r.value == ULONG_MAX
  {
    var w := SpaceRun(s);
    var minus := w < |s| && s[w] == '-';
    var start := if w < |s| && (s[w] == '-' || s[w] == '+') then w + 1 else w;
    var k := DigitRun(s[start..]);
    if k == 0 then Conversion(0, s, false)
    else
      var digits := s[start..start + k];
      assert AllDigits(digits);
      var mag := DecimalValue(digits);
      if mag > ULONG_MAX then Conversion(ULONG_MAX, s[start + k..], true)
      else if minus then Conversion(Wrap64(-(mag as int)), s[start + k..], false)
      else Conversion(mag, s[start + k..], false)
  }

  lemma {:induction false} DigitRunOfDigitsThen(d: seq<char>, tail: seq<char>)
    requires AllDigits(d)
    requires tail == [] || !IsDigit(tail[0])
    ensures DigitRun(d + tail) == |d|
  {
    if d != [] {
      assert (d + tail)[1..] == d[1..] + tail;
      DigitRunOfDigitsThen(d[1..], tail);
    }
  }

  /**
   * A plain digit string followed by a non-digit tail is converted to the
   * number the digits denote, `end` pointing at the tail, with `ERANGE`
   * exactly when that number does not fit in an `unsigned long`.
   */
  lemma StrtoulDigitsThen(d: seq<char>, tail: seq<char>)
    requires AllDigits(d) && |d| > 0
    requires tail == [] || !IsDigit(tail[0])
    ensures Strtoul(d + tail) == if DecimalValue(d) > ULONG_MAX then Conversion(ULONG_MAX, tail, true)
                                 else Conversion(DecimalValue(d), tail, false)
  {
    var s := d + tail;
    assert s[0] == d[0] && IsDigit(s[0]);
    assert !IsSpace(s[0]) && !(s[0] == '-' || s[0] == '+');
    assert SpaceRun(s) == 0;
    assert s[0..] == s;
    DigitRunOfDigitsThen(d, tail);
    assert DigitRun(s[0..]) == |d|;
    assert s[0..0 + |d|] == d;
    assert s[0 + |d|..] == tail;
  }
}
