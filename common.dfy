/** Shared vocabulary of the logging model: optional values, Go's fixed-width
    unsigned integers, and the few string operations of Go's `strings` and
    `strconv` packages that the logger relies on. */
module Common {

  datatype Option<+T> = None | Some(value: T)

  /** A value, or the error a Go function returned instead. */
  datatype Result<+T, +E> = Ok(value: T) | Err(error: E)

  /** Go's `uint8`, `uint16` and `uint32`. */
  type uint8 = x: int | 0 <= x < 0x100
  type uint16 = x: int | 0 <= x < 0x1_0000
  type uint32 = x: int | 0 <= x < 0x1_0000_0000

  /** Go's conversion `uint32(x)`: keeps the low 32 bits (two's complement for negative x). */
  function ToUint32(x: int): (r: uint32)
    ensures 0 <= x < 0x1_0000_0000 ==> r == x
  {
    x % 0x1_0000_0000
  }

  // ---------------------------------------------------------------------------
  // strings.HasPrefix, strings.HasSuffix, strings.Contains, strings.Repeat
  // ---------------------------------------------------------------------------

  predicate HasPrefix(s: string, p: string) {
    |p| <= |s| && s[..|p|] == p
  }

  predicate HasSuffix(s: string, p: string) {
    |p| <= |s| && s[|s| - |p|..] == p
  }

  /** strings.Contains: `t` occurs somewhere in `s` (the empty string occurs everywhere). */
  predicate Contains(s: string, t: string)
    ensures Contains(s, t) <==> exists i :: 0 <= i <= |s| - |t| && HasPrefix(s[i..], t)
    decreases |s|
  {
    if HasPrefix(s, t) then
      assert s[0..] == s;
      true
    else if |s| == 0 then false
    else
      assert forall i :: 1 <= i <= |s| ==> s[i..] == s[1..][i - 1..];
      Contains(s[1..], t)
  }

  /** Every occurrence of "%%" is in particular an occurrence of "%". */
  lemma {:induction false} DoublePercentContainsPercent(s: string)
    ensures Contains(s, "%%") ==> Contains(s, "%")
    decreases |s|
  {
    if |s| > 0 && !HasPrefix(s, "%%") {
      DoublePercentContainsPercent(s[1..]);
    }
  }

  /** strings.Repeat(s, n). */
  function Repeat(s: string, n: nat): (r: string)
    ensures |r| == n * |s|
    decreases n
  {
    if n == 0 then "" else s + Repeat(s, n - 1)
  }

  /** Repeating once more appends one more copy at the end. */
  lemma {:induction false} RepeatSnoc(s: string, n: nat)
    ensures Repeat(s, n + 1) == Repeat(s, n) + s
    decreases n
  {
    if n > 0 {
      RepeatSnoc(s, n - 1);
    }
  }

  // ---------------------------------------------------------------------------
  // Decimal numerals: strconv.Itoa and the "%03d" verb of fmt
  // ---------------------------------------------------------------------------

  predicate IsDigit(c: char) {
    '0' <= c <= '9'
  }

  predicate AllDigits(s: string) {
    forall i :: 0 <= i < |s| ==> IsDigit(s[i])
  }

  function DigitChar(d: nat): (c: char)
    requires d < 10
    ensures IsDigit(c) && c as int - '0' as int == d
  {
    ('0' as int + d) as char
  }

  /** The decimal numeral of a natural number, most significant digit first. */
  function NatToString(n: nat): (r: string)
    ensures |r| >= 1 && AllDigits(r)
    ensures |r| > 1 ==> r[0] != '0'
    decreases n
  {
    if n < 10 then [DigitChar(n)] else NatToString(n / 10) + [DigitChar(n % 10)]
  }

  /** strconv.Itoa. */
  function Itoa(n: int): (r: string)
    ensures n >= 0 ==> |r| >= 1 && AllDigits(r) && DigitsValue(r) == n && (|r| > 1 ==> r[0] != '0')
    ensures n < 0 ==> |r| >= 2 && r[0] == '-' && AllDigits(r[1..]) && DigitsValue(r[1..]) == -n && r[1] != '0'
  {
    if n < 0 then
      var d := NatToString(-n);
      NatToStringValue(-n);
      assert ("-" + d)[1..] == d;
      "-" + d
    else
      NatToStringValue(n);
      NatToString(n)
  }

  /** The value of a numeral, read most significant digit first. */
  function DigitsValue(s: string): nat
    requires AllDigits(s)
    decreases |s|
  {
    if s == [] then 0 else DigitsValue(s[..|s| - 1]) * 10 + (s[|s| - 1] as int - '0' as int)
  }

  /** Reading back the numeral of n gives n. */
  lemma {:induction false} NatToStringValue(n: nat)
    ensures DigitsValue(NatToString(n)) == n
    decreases n
  {
    var r := NatToString(n);
    if n >= 10 {
      NatToStringValue(n / 10);
      assert r[..|r| - 1] == NatToString(n / 10);
    }
  }

  /** A leading zero does not change the value of a numeral. */
  lemma {:induction false} LeadingZeroValue(s: string)
    requires AllDigits(s)
    ensures AllDigits("0" + s) && DigitsValue("0" + s) == DigitsValue(s)
    decreases |s|
  {
    if s != [] {
      var t := s[..|s| - 1];
      LeadingZeroValue(t);
      assert ("0" + s)[..|"0" + s| - 1] == "0" + t;
    }
  }

  /** fmt's "%03d" for a non-negative number: the numeral padded with zeros to width 3. */
  function Pad3(n: nat): (r: string)
    ensures |r| >= 3 && HasSuffix(r, NatToString(n))
    ensures |r| == if |NatToString(n)| < 3 then 3 else |NatToString(n)|
    ensures forall j :: 0 <= j < |r| - |NatToString(n)| ==> r[j] == '0'
  {
    var d := NatToString(n);
    if |d| == 1 then "00" + d else if |d| == 2 then "0" + d else d
  }

  /** The padded numeral has at least three characters, all digits, and reads back as n. */
  lemma Pad3Digits(n: nat)
    ensures |Pad3(n)| >= 3 && AllDigits(Pad3(n))
    ensures DigitsValue(Pad3(n)) == n
  {
    var d := NatToString(n);
    NatToStringValue(n);
    if |d| == 1 {
      LeadingZeroValue(d);
      LeadingZeroValue("0" + d);
      assert "0" + ("0" + d) == "00" + d;
    } else if |d| == 2 {
      LeadingZeroValue(d);
    }
  }

  // ---------------------------------------------------------------------------
  // strconv.ParseInt(s, 8, 64)
  // ---------------------------------------------------------------------------

  predicate IsOctalDigit(c: char) {
    '0' <= c <= '7'
  }

  predicate AllOctal(s: string) {
    forall i :: 0 <= i < |s| ==> IsOctalDigit(s[i])
  }

  /** The value of a base-8 numeral, most significant digit first. */
  function OctalValue(s: string): nat
    requires AllOctal(s)
    decreases |s|
  {
    if s == [] then 0 else OctalValue(s[..|s| - 1]) * 8 + (s[|s| - 1] as int - '0' as int)
  }

  const Int64Limit: int := 0x8000_0000_0000_0000

  /** strconv.ParseInt(s, 8, 64): an optional sign, then at least one octal digit, and
      a value that fits in 64 bits; anything else is an error. */
  function ParseOctal(s: string): (r: Option<int>)
    ensures r.Some? ==> s != "" && -Int64Limit <= r.value < Int64Limit
    // plain digits, and digits after a '+' or a '-'
    ensures s != "" && AllOctal(s) ==>
              r == if OctalValue(s) < Int64Limit then Some(OctalValue(s)) else None
    ensures |s| > 1 && s[0] == '+' && AllOctal(s[1..]) ==>
              r == if OctalValue(s[1..]) < Int64Limit then Some(OctalValue(s[1..])) else None
    ensures |s| > 1 && s[0] == '-' && AllOctal(s[1..]) ==>
              if OctalValue(s[1..]) <= Int64Limit then r.Some? && r.value == -(OctalValue(s[1..]) as int) else r == None
    // a lone sign, or any other character than a leading sign or an octal digit
    ensures s == "+" || s == "-" ==> r == None
    ensures (exists i :: 0 <= i < |s| && !IsOctalDigit(s[i]) && !(i == 0 && (s[i] == '+' || s[i] == '-'))) ==> r == None
  {
    if s == "" then None
    else
      var neg := s[0] == '-';
      var digits := if s[0] == '+' || s[0] == '-' then s[1..] else s;
      if digits == "" || !AllOctal(digits) then None
      else
        var u: int := OctalValue(digits);
        if !neg && u >= Int64Limit then None
        else if neg && u > Int64Limit then None
        else Some(if neg then -u else u)
  }

  /** The permission every file store is created with parses to 0o660. */
  lemma DefaultPermParses()
    ensures ParseOctal("0660") == Some(0x1B0)
  {
    assert AllOctal("0660");
    assert "0660"[..3] == "066" && "066"[..2] == "06" && "06"[..1] == "0" && "0"[..0] == "";
  }
}
