/** Integer printing of src/base/src/LogStream.cc: canonical numerals, the in-place conversions that
    produce them, and the fixed buffer they are written into. */
module LogStreams {
  import opened Integers

  // ---------------------------------------------------------------- numerals

  const DIGITS_HEX := "0123456789ABCDEF"

  /** `zero[d]` for `d` in -9 .. 9: the table is symmetric about its middle. */
  const DIGITS := "9876543210123456789"
  const ZERO := 9

  function Digit(d: nat): char
    requires d < 16
  {
    if d < 10 then '0' + d as char else 'A' + (d - 10) as char
  }

  datatype Base = Ten | Sixteen {
    function Radix(): nat {
      if Ten? then 10 else 16
    }

    function Quotient(n: nat): nat {
      if Ten? then n / 10 else n / 16
    }

    function Remainder(n: nat): nat {
      if Ten? then n % 10 else n % 16
    }

    function Times(n: nat): nat {
      if Ten? then 10 * n else 16 * n
    }
  }

  /** The numeral of `n`, most significant digit first. */
  function Numeral(n: nat, base: Base): (r: string)
    ensures r != []
  {
    if n < base.Radix() then [Digit(n)] else Numeral(base.Quotient(n), base) + [Digit(base.Remainder(n))]
  }

  function Sign(negative: bool): string {
    if negative then "-" else ""
  }

  function Decimal(v: int): string {
    Sign(v < 0) + Numeral(Abs(v), Ten)
  }

  function DigitValue(c: char): nat {
    if '0' <= c <= '9' then c as nat - '0' as nat
    else if 'A' <= c <= 'F' then c as nat - 'A' as nat + 10
    else 16
  }

  function ParseNat(s: string, base: Base): nat {
    if s == [] then 0 else base.Times(ParseNat(s[..|s| - 1], base)) + DigitValue(s[|s| - 1])
  }

  function ParseDecimal(s: string): int {
    if s != [] && s[0] == '-' then -(ParseNat(s[1..], Ten) as int) else ParseNat(s, Ten)
  }

  /** Digits of the base only, at least one, and no leading zero unless it is the only digit. */
  predicate CanonicalNat(s: string, base: Base) {
    && s != []
    && (forall i :: 0 <= i < |s| ==> DigitValue(s[i]) < base.Radix())
    && (|s| > 1 ==> s[0] != '0')
  }

  predicate CanonicalDecimal(s: string) {
    if s != [] && s[0] == '-' then CanonicalNat(s[1..], Ten) && s[1..] != "0" else CanonicalNat(s, Ten)
  }

  lemma DigitValueOfDigit(d: nat)
    requires d < 16
    ensures DigitValue(Digit(d)) == d
    ensures Digit(d) == '0' <==> d == 0
  {
  }

  lemma DigitOfDigitValue(c: char)
    requires DigitValue(c) < 16
    ensures Digit(DigitValue(c)) == c
  {
  }

  lemma Divide(n: nat, d: nat, base: Base)
    requires d < base.Radix()
    ensures base.Quotient(base.Times(n) + d) == n && base.Remainder(base.Times(n) + d) == d
  {
  }

  lemma DivideBack(n: nat, base: Base)
    ensures base.Times(base.Quotient(n)) + base.Remainder(n) == n && base.Remainder(n) < base.Radix()
    ensures n >= base.Radix() ==> 0 < base.Quotient(n) < n
  {
  }

  lemma ParseSnoc(s: string, c: char, base: Base)
    ensures ParseNat(s + [c], base) == base.Times(ParseNat(s, base)) + DigitValue(c)
  {
    assert (s + [c])[..|s|] == s;
  }

  lemma CanonicalSnoc(s: string, c: char, base: Base)
    requires CanonicalNat(s, base) && s[0] != '0' && DigitValue(c) < base.Radix()
    ensures CanonicalNat(s + [c], base) && (s + [c])[0] == s[0]
  {
  }

  /** Numerals are canonical and parse back to their number. */
  lemma {:induction false} NumeralParses(n: nat, base: Base)
    ensures CanonicalNat(Numeral(n, base), base) && ParseNat(Numeral(n, base), base) == n
    ensures n != 0 ==> Numeral(n, base)[0] != '0'
    decreases n
  {
    if n < base.Radix() {
      DigitValueOfDigit(n);
      ParseSnoc([], Digit(n), base);
      assert [] + [Digit(n)] == [Digit(n)];
    } else {
      var q, d := base.Quotient(n), base.Remainder(n);
      DivideBack(n, base);
      NumeralParses(q, base);
      OneMoreDigit(Numeral(q, base), d, base);
    }
  }

  lemma OneMoreDigit(front: string, d: nat, base: Base)
    requires CanonicalNat(front, base) && front[0] != '0' && d < base.Radix()
    ensures var s := front + [Digit(d)];
            CanonicalNat(s, base) && s[0] != '0' && ParseNat(s, base) == base.Times(ParseNat(front, base)) + d
  {
    DigitValueOfDigit(d);
    CanonicalSnoc(front, Digit(d), base);
    ParseSnoc(front, Digit(d), base);
  }

  lemma NumeralSnoc(n: nat, d: nat, base: Base)
    requires n != 0 && d < base.Radix()
    ensures Numeral(base.Times(n) + d, base) == Numeral(n, base) + [Digit(d)]
  {
    Divide(n, d, base);
  }

  lemma CanonicalFront(s: string, base: Base)
    requires CanonicalNat(s, base) && |s| > 1
    ensures CanonicalNat(s[..|s| - 1], base) && s[..|s| - 1][0] == s[0] != '0'
  {
  }

  lemma OneDigit(c: char, base: Base)
    requires DigitValue(c) < base.Radix()
    ensures ParseNat([c], base) == DigitValue(c) && Numeral(DigitValue(c), base) == [c]
    ensures DigitValue(c) == 0 ==> c == '0'
  {
    ParseSnoc([], c, base);
    assert [] + [c] == [c];
    DigitOfDigitValue(c);
  }

  /** Among canonical numerals there is only one for each number. */
  lemma {:induction false} CanonicalIsNumeral(s: string, base: Base)
    requires CanonicalNat(s, base)
    ensures s == Numeral(ParseNat(s, base), base)
    ensures s[0] != '0' ==> ParseNat(s, base) != 0
    decreases |s|
  {
    if |s| == 1 {
      assert s == [s[0]];
      OneDigit(s[0], base);
    } else {
      var front, last := s[..|s| - 1], s[|s| - 1];
      assert s == front + [last];
      CanonicalFront(s, base);
      CanonicalIsNumeral(front, base);
      ParseSnoc(front, last, base);
      DigitOfDigitValue(last);
      NumeralSnoc(ParseNat(front, base), DigitValue(last), base);
    }
  }

  lemma WithSign(n: string)
    requires CanonicalNat(n, Ten) && n[0] != '0'
    ensures CanonicalDecimal("-" + n) && ParseDecimal("-" + n) == -(ParseNat(n, Ten) as int)
  {
    var s := "-" + n;
    assert s[0] == '-' && s[1..] == n;
  }

  lemma WithoutSign(n: string)
    requires CanonicalNat(n, Ten)
    ensures CanonicalDecimal(n) && ParseDecimal(n) == ParseNat(n, Ten)
  {
    assert DigitValue(n[0]) < 10;
  }

  /** Decimal text is canonical, parses back to its value, and is the only such text. */
  lemma DecimalRoundTrip(v: int)
    ensures CanonicalDecimal(Decimal(v)) && ParseDecimal(Decimal(v)) == v
  {
    NumeralParses(Abs(v), Ten);
    if v < 0 {
      WithSign(Numeral(Abs(v), Ten));
    } else {
      WithoutSign(Numeral(Abs(v), Ten));
      assert Decimal(v) == Numeral(Abs(v), Ten);
    }
  }

  lemma DecimalIsUnique(s: string)
    requires CanonicalDecimal(s)
    ensures s == Decimal(ParseDecimal(s))
  {
    if s[0] == '-' {
      CanonicalIsNumeral(s[1..], Ten);
      assert s == "-" + s[1..];
      assert Numeral(0, Ten) == "0";
    } else {
      CanonicalIsNumeral(s, Ten);
    }
  }

  function Power(base: Base, k: nat): nat {
    if k == 0 then 1 else base.Times(Power(base, k - 1))
  }

  lemma {:induction false} NumeralLength(n: nat, base: Base, k: nat)
    requires 0 < k && n < Power(base, k)
    ensures |Numeral(n, base)| <= k
    decreases k
  {
    if n >= base.Radix() {
      assert Power(base, 1) == base.Times(Power(base, 0));
      NumeralLength(base.Quotient(n), base, k - 1);
    }
  }

  const INT64_MIN := -0x8000_0000_0000_0000
  const UINT64_MAX := 0xFFFF_FFFF_FFFF_FFFF

  /** The values of every integer type convert is used with. */
  predicate Representable(v: int) {
    INT64_MIN <= v <= UINT64_MAX
  }

  lemma PowersOfTen()
    ensures Power(Ten, 19) == 10_000_000_000_000_000_000
    ensures Power(Ten, 20) == 100_000_000_000_000_000_000
  {
    assert Power(Ten, 4) == 10_000;
    assert Power(Ten, 8) == 100_000_000;
    assert Power(Ten, 12) == 1_000_000_000_000;
    assert Power(Ten, 16) == 1_0000_0000_0000_0000;
  }

  lemma SixteenToThe16()
    ensures Power(Sixteen, 16) == UINT64_MAX + 1
  {
    assert Power(Sixteen, 4) == 0x1_0000;
    assert Power(Sixteen, 8) == 0x1_0000_0000;
    assert Power(Sixteen, 12) == 0x1_0000_0000_0000;
  }

  /** Twenty characters are enough for 64 bits, signed or not, the minimum included. */
  lemma DecimalLength(v: int)
    requires Representable(v)
    ensures 1 <= |Decimal(v)| <= 20
  {
    PowersOfTen();
    if v < 0 {
      NumeralLength(-v, Ten, 19);
    } else {
      NumeralLength(v, Ten, 20);
    }
  }

  lemma HexLength(v: nat)
    requires v <= UINT64_MAX
    ensures 1 <= |Numeral(v, Sixteen)| <= 16
  {
    SixteenToThe16();
    NumeralLength(v, Sixteen, 16);
  }

  // ---------------------------------------------------------------- conversions in place

  function Reversed(s: string): (r: string)
    ensures |r| == |s| && forall i :: 0 <= i < |s| ==> r[i] == s[|s| - 1 - i]
  {
    seq(|s|, i requires 0 <= i < |s| => s[|s| - 1 - i])
  }

  lemma ReversedSnoc(s: string, c: char)
    ensures Reversed(s + [c]) == [c] + Reversed(s)
  {
  }

  /** std::reverse on part of a buffer. */
  method Reverse(buf: array<char>, first: nat, last: nat)
    requires first <= last <= buf.Length
    modifies buf
    ensures buf[first..last] == Reversed(old(buf[first..last]))
    ensures forall k :: 0 <= k < first || last <= k < buf.Length ==> buf[k] == old(buf[k])
  {
    forall k | first <= k < last {
      buf[k] := buf[first + last - 1 - k];
    }
  }

  /** The digits still to come are those of `i`; the next one is its last. */
  lemma LastDigit(i: int)
    ensures var d := TruncMod(i, 10);
            -9 <= d <= 9 && DIGITS[ZERO + d] == Digit(Abs(d))
    ensures Abs(TruncDiv(i, 10)) == Abs(i) / 10 && Abs(TruncMod(i, 10)) == Abs(i) % 10
    ensures TruncDiv(i, 10) == 0 <==> Abs(i) < 10
  {
  }

  /** One digit moves from the number to the front of the reversed text. */
  lemma DigitMoves(n: nat, base: Base, written: string)
    ensures base.Remainder(n) < 16
    ensures Numeral(n, base) + Reversed(written)
              == (if n < base.Radix() then [] else Numeral(base.Quotient(n), base))
                 + Reversed(written + [Digit(base.Remainder(n))])
  {
    ReversedSnoc(written, Digit(base.Remainder(n)));
    if n >= base.Radix() {
      assert Numeral(base.Quotient(n), base) + [Digit(base.Remainder(n))] + Reversed(written)
          == Numeral(base.Quotient(n), base) + ([Digit(base.Remainder(n))] + Reversed(written));
    }
  }

  /** The loop of convert: the digits, last one first. */
  method WriteDecimalDigits(buf: array<char>, start: nat, value: int) returns (p: nat)
    requires start + |Numeral(Abs(value), Ten)| <= buf.Length
    modifies buf
    ensures p == start + |Numeral(Abs(value), Ten)| && Reversed(buf[start..p]) == Numeral(Abs(value), Ten)
    ensures forall k :: 0 <= k < start || p <= k < buf.Length ==> buf[k] == old(buf[k])
  {
    ghost var digits := Numeral(Abs(value), Ten);
    var i := value;
    p := start;
    var more := true;
    while more
      invariant start <= p <= start + |digits|
      invariant digits == (if more then Numeral(Abs(i), Ten) else []) + Reversed(buf[start..p])
      invariant forall k :: 0 <= k < start || start + |digits| <= k < buf.Length ==> buf[k] == old(buf[k])
      decreases more, Abs(i)
    {
      LastDigit(i);
      ghost var written := buf[start..p];
      DigitMoves(Abs(i), Ten, written);
      var lsd := TruncMod(i, 10);
      i := TruncDiv(i, 10);
      buf[p] := DIGITS[ZERO + lsd];
      assert buf[start..p + 1] == written + [buf[p]];
      p := p + 1;
      more := i != 0;
    }
    assert [] + Reversed(buf[start..p]) == Reversed(buf[start..p]);
  }

  method Convert(buf: array<char>, start: nat, value: int) returns (len: nat)
    requires start + |Decimal(value)| < buf.Length
    modifies buf
    ensures len == |Decimal(value)|
    ensures buf[start..start + len] == Decimal(value) && buf[start + len] == '\0'
    ensures forall k :: 0 <= k < start || start + len < k < buf.Length ==> buf[k] == old(buf[k])
  {
    var p := WriteDecimalDigits(buf, start, value);
    len := SignAndReverse(buf, start, p, value < 0);
  }

  /** The last lines of convert and convertHex: sign, terminator, reversal. */
  method SignAndReverse(buf: array<char>, start: nat, end: nat, negative: bool) returns (len: nat)
    requires start <= end && end + |Sign(negative)| < buf.Length
    modifies buf
    ensures len == end - start + |Sign(negative)|
    ensures buf[start..start + len] == Sign(negative) + Reversed(old(buf[start..end]))
    ensures buf[start + len] == '\0'
    ensures forall k :: 0 <= k < start || start + len < k < buf.Length ==> buf[k] == old(buf[k])
  {
    ghost var written := buf[start..end];
    SignedReversal(written, negative);
    var p := end;
    if negative {
      buf[p] := '-';
      p := p + 1;
    }
    buf[p] := '\0';
    assert buf[start..p] == written + Sign(negative);
    Reverse(buf, start, p);
    len := p - start;
  }

  lemma SignedReversal(s: string, negative: bool)
    ensures Reversed(s + Sign(negative)) == Sign(negative) + Reversed(s)
  {
  }

  lemma HexDigit(d: nat)
    requires d < 16
    ensures DIGITS_HEX[d] == Digit(d)
  {
  }

  /** The loop of convertHex. */
  method WriteHexDigits(buf: array<char>, start: nat, value: nat) returns (p: nat)
    requires start + |Numeral(value, Sixteen)| <= buf.Length
    modifies buf
    ensures p == start + |Numeral(value, Sixteen)| && Reversed(buf[start..p]) == Numeral(value, Sixteen)
    ensures forall k :: 0 <= k < start || p <= k < buf.Length ==> buf[k] == old(buf[k])
  {
    ghost var digits := Numeral(value, Sixteen);
    var i := value;
    p := start;
    var more := true;
    while more
      invariant start <= p <= start + |digits|
      invariant digits == (if more then Numeral(i, Sixteen) else []) + Reversed(buf[start..p])
      invariant forall k :: 0 <= k < start || start + |digits| <= k < buf.Length ==> buf[k] == old(buf[k])
      decreases more, i
    {
      ghost var written := buf[start..p];
      DigitMoves(i, Sixteen, written);
      var lsd := i % 16;
      i := i / 16;
      HexDigit(lsd);
      buf[p] := DIGITS_HEX[lsd];
      assert buf[start..p + 1] == written + [buf[p]];
      p := p + 1;
      more := i != 0;
    }
    assert [] + Reversed(buf[start..p]) == Reversed(buf[start..p]);
  }

  method ConvertHex(buf: array<char>, start: nat, value: nat) returns (len: nat)
    requires start + |Numeral(value, Sixteen)| < buf.Length
    modifies buf
    ensures len == |Numeral(value, Sixteen)|
    ensures buf[start..start + len] == Numeral(value, Sixteen) && buf[start + len] == '\0'
    ensures forall k :: 0 <= k < start || start + len < k < buf.Length ==> buf[k] == old(buf[k])
  {
    var p := WriteHexDigits(buf, start, value);
    len := SignAndReverse(buf, start, p, false);
  }

  lemma PrefixAndText(s: string, i: nat, text: string)
    requires i + 2 + |text| <= |s| && s[i] == '0' && s[i + 1] == 'x' && s[i + 2..i + 2 + |text|] == text
    ensures s[i..i + |"0x" + text|] == "0x" + text
  {
    assert s[i..i + 2 + |text|] == s[i..i + 2] + s[i + 2..i + 2 + |text|];
    assert s[i..i + 2] == "0x";
  }

  /** The body of operator<<(const void*). */
  method ConvertPointer(buf: array<char>, start: nat, value: nat) returns (len: nat)
    requires start + 2 + |Numeral(value, Sixteen)| < buf.Length
    modifies buf
    ensures len == 2 + |Numeral(value, Sixteen)|
    ensures buf[start..start + len] == "0x" + Numeral(value, Sixteen)
    ensures forall k :: 0 <= k < start || start + len < k < buf.Length ==> buf[k] == old(buf[k])
  {
    buf[start] := '0';
    buf[start + 1] := 'x';
    len := ConvertHex(buf, start + 2, value);
    assert buf[..][start + 2..start + 2 + len] == buf[start + 2..start + 2 + len];
    PrefixAndText(buf[..], start, Numeral(value, Sixteen));
    len := len + 2;
    assert buf[..][start..start + len] == buf[start..start + len];
  }

  // ---------------------------------------------------------------- FixedBuffer

  const MAX_NUMERIC_SIZE: nat := 48
  const LARGE_BUFFER: nat := 4000 * 1000

  /** FixedBuffer::append drops what does not leave a byte free. */
  function FixedAppend(size: nat, contents: string, line: string): string {
    if size - |contents| > |line| then contents + line else contents
  }

  /** Text written behind the first `i` characters, which stay. */
  lemma TextAppended(before: string, now: string, i: nat, text: string)
    requires i + |text| <= |now| && i <= |before| && forall k :: 0 <= k < i ==> now[k] == before[k]
    requires now[i..i + |text|] == text
    ensures now[..i + |text|] == before[..i] + text
  {
    assert now[..i + |text|] == now[..i] + now[i..i + |text|];
    assert now[..i] == before[..i];
  }

  class FixedBuffer {
    const data: array<char>
    var cur: nat

    ghost predicate Valid()
      reads this
    {
      cur <= data.Length
    }

    ghost function Contents(): string
      reads this, data
      requires Valid()
    {
      data[..cur]
    }

    constructor (size: nat)
      ensures Valid() && fresh(data) && data.Length == size && Contents() == []
    {
      data := new char[size](_ => '\0');
      cur := 0;
    }

    function Avail(): nat
      reads this
      requires Valid()
    {
      data.Length - cur
    }

    method Append(line: string)
      requires Valid()
      modifies this, data
      ensures Valid()
      ensures Contents() == FixedAppend(data.Length, old(Contents()), line)
    {
      if Avail() > |line| {
        forall k | cur <= k < cur + |line| {
          data[k] := line[k - cur];
        }
        cur := cur + |line|;
      }
    }

    method Add(len: nat)
      requires Valid() && len <= Avail()
      modifies this
      ensures Valid() && cur == old(cur) + len
    {
      cur := cur + len;
    }

    method Reset()
      modifies this
      ensures Valid() && Contents() == []
    {
      cur := 0;
    }

    /** LogStream::formatInteger: with 48 bytes to spare the number and its terminator always fit. */
    method FormatInteger(v: int)
      requires Valid() && Representable(v)
      modifies this, data
      ensures Valid()
      ensures Contents() == old(Contents()) + (if old(Avail()) >= 48 then Decimal(v) else [])
    {
      if Avail() >= MAX_NUMERIC_SIZE {
        DecimalLength(v);
        ghost var before, text := data[..], Decimal(v);
        var len := Convert(data, cur, v);
        assert data[..][cur..cur + len] == data[cur..cur + len];
        TextAppended(before, data[..], cur, text);
        Add(len);
        assert data[..cur] == data[..][..cur];
      }
    }

    /** LogStream::operator<<(const void*). */
    method FormatPointer(v: nat)
      requires Valid() && v <= UINT64_MAX
      modifies this, data
      ensures Valid()
      ensures Contents() == old(Contents())
                            + (if old(Avail()) >= 48 then "0x" + Numeral(v, Sixteen) else [])
    {
      if Avail() >= MAX_NUMERIC_SIZE {
        HexLength(v);
        ghost var before, text := data[..], "0x" + Numeral(v, Sixteen);
        var len := ConvertPointer(data, cur, v);
        assert data[..][cur..cur + len] == data[cur..cur + len];
        TextAppended(before, data[..], cur, text);
        Add(len);
        assert data[..cur] == data[..][..cur];
      }
    }
  }
}
