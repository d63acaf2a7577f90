/** Signed integers in network byte order, as src/net/include/Endian.h and the typed accessors of
    src/net/include/Buffer.h exchange them. */
module NetworkOrder {
  import opened Sequences

  type Byte = b: int | 0 <= b < 256

  function Range(width: nat): nat {
    if width == 0 then 1 else 256 * Range(width - 1)
  }

  /** The values of a signed integer of `width` bytes. */
  predicate Fits(x: int, width: nat) {
    width > 0 && -(Range(width) as int) <= 2 * x < Range(width)
  }

  /** Two's complement. */
  function Unsigned(x: int, width: nat): nat
    requires Fits(x, width)
  {
    if x < 0 then x + Range(width) else x
  }

  function Signed(u: nat, width: nat): int {
    if 2 * u >= Range(width) then u - Range(width) else u
  }

  /** The low `width` bytes of `u`, most significant first. */
  function BigEndian(u: nat, width: nat): (r: seq<Byte>)
    ensures |r| == width
  {
    if width == 0 then [] else BigEndian(u / 256, width - 1) + [u % 256]
  }

  function FromBigEndian(s: seq<Byte>): nat {
    if s == [] then 0 else 256 * FromBigEndian(s[..|s| - 1]) + s[|s| - 1]
  }

  function Encode(x: int, width: nat): (r: seq<Byte>)
    requires Fits(x, width)
    ensures |r| == width
  {
    BigEndian(Unsigned(x, width), width)
  }

  function Decode(s: seq<Byte>): int {
    Signed(FromBigEndian(s), |s|)
  }

  lemma {:induction false} BigEndianRoundTrip(u: nat, width: nat)
    requires u < Range(width)
    ensures FromBigEndian(BigEndian(u, width)) == u
    decreases width
  {
    if width > 0 {
      BigEndianRoundTrip(u / 256, width - 1);
      assert BigEndian(u, width)[..width - 1] == BigEndian(u / 256, width - 1);
    }
  }

  lemma {:induction false} BytesInRange(s: seq<Byte>)
    ensures FromBigEndian(s) < Range(|s|)
    decreases |s|
  {
    if s != [] {
      BytesInRange(s[..|s| - 1]);
    }
  }

  lemma LastByte(high: nat, low: Byte)
    ensures (256 * high + low) / 256 == high && (256 * high + low) % 256 == low
  {
  }

  lemma {:induction false} BytesRoundTrip(s: seq<Byte>)
    ensures BigEndian(FromBigEndian(s), |s|) == s
    decreases |s|
  {
    if s != [] {
      var front, last := s[..|s| - 1], s[|s| - 1];
      var high, u := FromBigEndian(front), FromBigEndian(s);
      BytesRoundTrip(front);
      LastByte(high, last);
      assert u / 256 == high && u % 256 == last;
      assert BigEndian(u, |s|) == BigEndian(high, |front|) + [last];
    }
  }

  /** Every value of every width reads back as written, the minimum included. */
  lemma EncodeRoundTrip(x: int, width: nat)
    requires Fits(x, width)
    ensures Decode(Encode(x, width)) == x
  {
    BigEndianRoundTrip(Unsigned(x, width), width);
  }

  /** And every string of bytes is the encoding of the value it reads as. */
  lemma DecodeRoundTrip(s: seq<Byte>)
    requires s != []
    ensures Fits(Decode(s), |s|) && Encode(Decode(s), |s|) == s
  {
    BytesInRange(s);
    BytesRoundTrip(s);
    assert Range(|s|) == 2 * (128 * Range(|s| - 1));
  }

  // ---------------------------------------------------------------- byte order

  lemma Quotient(a: nat, b: nat, q: nat, r: nat)
    requires r < b && a == b * q + r
    ensures a / b == q
  {
    var p := a / b;
    assert a == b * p + a % b;
    if p > q {
      Scales(b, p - q);
    } else if p < q {
      Scales(b, q - p);
    }
  }

  lemma Scales(b: nat, n: nat)
    requires n > 0
    ensures b * n >= b
  {
  }

  lemma {:induction false} RangeIsPositive(width: nat)
    ensures Range(width) > 0
  {
    if width > 0 {
      RangeIsPositive(width - 1);
    }
  }

  lemma DivideTwice(u: nat, k: nat)
    requires k > 0
    ensures u / 256 / k == u / (256 * k)
  {
    var q, r := u / (256 * k), u % (256 * k);
    var v := k * q;
    assert u == 256 * v + r;
    assert u / 256 == v + r / 256;
    assert r / 256 < k;
    Quotient(u / 256, k, q, r / 256);
  }

  lemma {:induction false} ByteOfBigEndian(u: nat, width: nat, i: nat)
    requires i < width
    ensures Range(width - 1 - i) > 0 && BigEndian(u, width)[i] == u / Range(width - 1 - i) % 256
    decreases width
  {
    RangeIsPositive(width - 1 - i);
    if i < width - 1 {
      ByteOfBigEndian(u / 256, width - 1, i);
      RangeIsPositive(width - 2 - i);
      DivideTwice(u, Range(width - 2 - i));
    }
  }

  /** Most significant byte first: byte `i` has the weight 256 to the power of the bytes after it. */
  lemma ByteOfEncoding(x: int, width: nat, i: nat)
    requires Fits(x, width) && i < width
    ensures Range(width - 1 - i) > 0
    ensures Encode(x, width)[i] == Unsigned(x, width) / Range(width - 1 - i) % 256
  {
    ByteOfBigEndian(Unsigned(x, width), width, i);
  }

  // ---------------------------------------------------------------- records

  datatype Field = Field(value: int, width: nat)

  predicate ValidField(f: Field) {
    f.width in {1, 2, 4, 8} && Fits(f.value, f.width)
  }

  function EncodeAll(fields: seq<Field>): seq<Byte>
    requires forall i :: 0 <= i < |fields| ==> ValidField(fields[i])
  {
    if fields == [] then []
    else
      assert ValidField(fields[0]);
      Encode(fields[0].value, fields[0].width) + EncodeAll(fields[1..])
  }

  /** Read integers of the given widths off the front: their values and what is left. */
  function ReadAll(s: seq<Byte>, widths: seq<nat>): (seq<int>, seq<Byte>)
    decreases |widths|
  {
    if widths == [] || |s| < widths[0] then ([], s)
    else
      var rest := ReadAll(s[widths[0]..], widths[1..]);
      ([Decode(s[..widths[0]])] + rest.0, rest.1)
  }

  function Values(fields: seq<Field>): seq<int> {
    seq(|fields|, i requires 0 <= i < |fields| => fields[i].value)
  }

  function Widths(fields: seq<Field>): seq<nat> {
    seq(|fields|, i requires 0 <= i < |fields| => fields[i].width)
  }

  lemma ReadFirst(head: seq<Byte>, tail: seq<Byte>, widths: seq<nat>)
    ensures var rest := ReadAll(tail, widths);
            ReadAll(head + tail, [|head|] + widths) == ([Decode(head)] + rest.0, rest.1)
  {
    assert (head + tail)[..|head|] == head && (head + tail)[|head|..] == tail;
    assert ([|head|] + widths)[1..] == widths;
  }

  lemma FirstField(fields: seq<Field>)
    requires fields != []
    ensures Widths(fields) == [fields[0].width] + Widths(fields[1..])
    ensures Values(fields) == [fields[0].value] + Values(fields[1..])
  {
  }

  /** Integers of mixed widths written one after the other are read back in order, whatever follows. */
  lemma {:induction false} RecordRoundTrip(fields: seq<Field>, rest: seq<Byte>)
    requires forall i :: 0 <= i < |fields| ==> ValidField(fields[i])
    ensures ReadAll(EncodeAll(fields) + rest, Widths(fields)) == (Values(fields), rest)
    decreases |fields|
  {
    if fields == [] {
      assert EncodeAll(fields) + rest == rest && Widths(fields) == [] && Values(fields) == [];
    } else {
      var f := fields[0];
      var head, body := Encode(f.value, f.width), EncodeAll(fields[1..]);
      RecordRoundTrip(fields[1..], rest);
      EncodeRoundTrip(f.value, f.width);
      ReadFirst(head, body + rest, Widths(fields[1..]));
      FirstField(fields);
      Associate(head, body, rest);
      assert EncodeAll(fields) + rest == head + (body + rest);
      assert Widths(fields) == [|head|] + Widths(fields[1..]);
    }
  }
}
