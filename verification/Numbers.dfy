/** Decimal and hexadecimal numbers as the C++ library prints and reads them. */
module Numbers {
  import opened Ctype

  const UINT_MAX: nat := 0xFFFF_FFFF
  const ULONG_MAX: nat := 0xFFFF_FFFF_FFFF_FFFF

  function DigitValue(c: char): (v: nat)
    requires IsXDigit(c)
    ensures v < 16 && (IsDigit(c) ==> v < 10)
  {
    if IsDigit(c) then c as int - '0' as int
    else if 'a' <= c <= 'f' then c as int - 'a' as int + 10
    else c as int - 'A' as int + 10
  }

  predicate AllDigits(t: string) { forall i :: 0 <= i < |t| ==> IsDigit(t[i]) }

  predicate AllXDigits(t: string) { forall i :: 0 <= i < |t| ==> IsXDigit(t[i]) }

  /** The number a digit string denotes. */
  function Value(base: nat, t: string): nat
    requires AllXDigits(t)
  {
    if t == "" then 0 else Value(base, t[..|t| - 1]) * base + DigitValue(t[|t| - 1])
  }

  // --- Hexadecimal notation

  const LOWER_HEX: string := "0123456789abcdef"
  const UPPER_HEX: string := "0123456789ABCDEF"

  /** The text t is the number n in hexadecimal notation, each digit in either case, zeros in front allowed. */
  predicate Hexadecimal(t: string, n: nat) {
    && t != ""
    && (t[|t| - 1] == LOWER_HEX[n % 16] || t[|t| - 1] == UPPER_HEX[n % 16])
    && if |t| == 1 then n < 16 else Hexadecimal(t[..|t| - 1], n / 16)
  }

  /** The value of a digit is its place in the tables, and those are all the digits. */
  lemma HexDigit(c: char)
    ensures IsXDigit(c) ==> c == LOWER_HEX[DigitValue(c)] || c == UPPER_HEX[DigitValue(c)]
    ensures forall v :: 0 <= v < 16 && (c == LOWER_HEX[v] || c == UPPER_HEX[v]) ==> IsXDigit(c) && DigitValue(c) == v
  {}

  lemma {:induction false} HexadecimalValue(t: string, n: nat)
    ensures Hexadecimal(t, n) <==> t != "" && AllXDigits(t) && Value(16, t) == n
  {
    if t != "" {
      var c, rest := t[|t| - 1], t[..|t| - 1];
      HexDigit(c);
      assert AllXDigits(t) <==> AllXDigits(rest) && IsXDigit(c) by {
        assert t == rest + [c];
      }
      if |t| > 1 {
        HexadecimalValue(rest, n / 16);
      } else {
        assert rest == "";
      }
    }
  }

  /** The largest number of a type stands for all larger ones. */
  function Clip(n: nat, max: nat): nat { if n > max then max else n }

  /** operator>> into an unsigned variable: an empty stream leaves it alone, an overflow saturates it. */
  function Extract(base: nat, t: string, max: nat, before: nat): nat
    requires AllXDigits(t)
  {
    if t == "" then before else if Value(base, t) > max then max else Value(base, t)
  }

  /** operator<< of an unsigned number. */
  function Decimal(n: nat): (t: string)
    ensures AllDigits(t) && t != ""
  {
    if n < 10 then [(n + '0' as int) as char]
    else Decimal(n / 10) + [(n % 10 + '0' as int) as char]
  }

  lemma {:induction false} DecimalValue(n: nat)
    ensures Value(10, Decimal(n)) == n
  {
    var t := Decimal(n);
    if n < 10 {
      assert t[..0] == "";
    } else {
      assert t[..|t| - 1] == Decimal(n / 10);
      DecimalValue(n / 10);
    }
  }

  /** The outcome of std::stoul: an exception, or the value and how much of the string was read. */
  datatype Stoul = Throws | Number(value: nat, pos: nat)

  /** The position after the leading characters that satisfy the C library's isspace. */
  function SkipSpace(t: string, i: nat): (j: nat)
    requires i <= |t|
    ensures i <= j <= |t|
    decreases |t| - i
  {
    if i < |t| && IsSpace(t[i]) then SkipSpace(t, i + 1) else i
  }

  function SkipDigits(t: string, i: nat): (j: nat)
    requires i <= |t|
    ensures i <= j <= |t| && forall k :: i <= k < j ==> IsDigit(t[k])
    decreases |t| - i
  {
    if i < |t| && IsDigit(t[i]) then SkipDigits(t, i + 1) else i
  }

  /** Leading white space, a sign, digits; a minus sign negates modulo 2^64. */
  function ReadUnsigned(t: string): Stoul {
    var i := SkipSpace(t, 0);
    var j := if i < |t| && (t[i] == '+' || t[i] == '-') then i + 1 else i;
    var k := SkipDigits(t, j);
    if k == j || Value(10, t[j..k]) > ULONG_MAX then Throws
    else
      var v := Value(10, t[j..k]);
      Number(if t[i] == '-' && v > 0 then ULONG_MAX + 1 - v else v, k)
  }

  lemma {:induction false} SkipAllDigits(t: string, i: nat)
    requires i <= |t| && AllDigits(t)
    ensures SkipDigits(t, i) == |t|
    decreases |t| - i
  {
    if i < |t| { SkipAllDigits(t, i + 1); }
  }

  /** A printed number is read back in full. */
  lemma ReadDecimal(n: nat)
    requires n <= ULONG_MAX
    ensures ReadUnsigned(Decimal(n)) == Number(n, |Decimal(n)|)
  {
    var t := Decimal(n);
    assert !IsSpace(t[0]);
    SkipAllDigits(t, 0);
    assert t[0..|t|] == t;
    DecimalValue(n);
  }

  predicate AllSpace(t: string) { forall i :: 0 <= i < |t| ==> IsSpace(t[i]) }

  lemma {:induction false} SkipsSpace(t: string, i: nat, j: nat)
    requires i <= j <= |t| && (forall k :: i <= k < j ==> IsSpace(t[k])) && (j < |t| ==> !IsSpace(t[j]))
    ensures SkipSpace(t, i) == j
    decreases j - i
  {
    if i < j { SkipsSpace(t, i + 1, j); }
  }

  lemma {:induction false} SkipsDigits(t: string, i: nat, j: nat)
    requires i <= j <= |t| && (forall k :: i <= k < j ==> IsDigit(t[k])) && (j < |t| ==> !IsDigit(t[j]))
    ensures SkipDigits(t, i) == j
    decreases j - i
  {
    if i < j { SkipsDigits(t, i + 1, j); }
  }

  /** White space, a sign or none, digits, and anything that is no digit. */
  predicate Numeral(t: string, blanks: string, sign: string, digits: string, rest: string) {
    && t == blanks + sign + digits + rest
    && AllSpace(blanks) && (sign == "" || sign == "+" || sign == "-") && AllDigits(digits)
    && (rest != "" ==> !IsDigit(rest[0]))
    && (sign == "" && digits == "" && rest != "" ==> !IsSpace(rest[0]) && rest[0] != '+' && rest[0] != '-')
  }

  /** stoul throws without digits and on more than an unsigned long holds; a minus sign negates modulo 2^64; what
      follows the digits is not read. */
  lemma StoulReads(t: string, blanks: string, sign: string, digits: string, rest: string)
    requires Numeral(t, blanks, sign, digits, rest)
    ensures var n := Value(10, digits);
      ReadUnsigned(t) ==
      if digits == "" || n > ULONG_MAX then Throws
      else Number(if sign == "-" && n > 0 then ULONG_MAX + 1 - n else n, |t| - |rest|)
  {
    var i := |blanks|;
    var j := i + |sign|;
    var k := j + |digits|;
    assert forall m :: 0 <= m < i ==> t[m] == blanks[m];
    assert forall m :: j <= m < k ==> t[m] == digits[m - j];
    assert sign != "" ==> t[i] == sign[0];
    assert rest != "" ==> t[k] == rest[0];
    SkipsSpace(t, 0, i);
    SkipsDigits(t, j, k);
    assert t[j..k] == digits;
  }
}
