/** The gap buffer of src/net/include/Buffer.h and src/net/src/Buffer.cc, and the byte queue with
    insertion at the front that it implements. */
module Buffers {
  import opened NetworkOrder
  import opened Sequences

  const CHEAP_PREPEND: nat := 8
  const INITIAL_SIZE: nat := 1024
  const EXTRA: nat := 65536  // readFd's second area

  // ---------------------------------------------------------------- the byte queue

  /** The readable bytes, and how many bytes can surely be prepended. */
  datatype View = View(content: seq<Byte>, room: nat)

  datatype Op =
    | Append(data: seq<Byte>)
    | Receive(incoming: seq<Byte>)
    | Prepend(header: seq<Byte>)
    | Retrieve(len: nat)
    | Unwrite(back: nat)
    | Shrink(reserve: nat)

  predicate Allowed(v: View, op: Op) {
    match op
    case Append(_) => true
    case Receive(incoming) => |incoming| <= 65536
    case Prepend(header) => |header| <= v.room
    case Retrieve(len) => len <= |v.content|
    case Unwrite(back) => back <= |v.content|
    case Shrink(_) => true
  }

  function Capped(room: nat): nat {
    if room < CHEAP_PREPEND then room else CHEAP_PREPEND
  }

  function Apply(v: View, op: Op): View
    requires Allowed(v, op)
  {
    match op
    case Append(data) => v.(content := v.content + data)
    case Receive(incoming) => v.(content := v.content + incoming)
    case Prepend(header) => View(header + v.content, v.room - |header|)
    case Retrieve(len) => View(v.content[len..], if len == |v.content| then CHEAP_PREPEND else Capped(v.room + len))
    case Unwrite(back) => v.(content := v.content[..|v.content| - back])
    case Shrink(_) => v.(room := CHEAP_PREPEND)
  }

  predicate AllAllowed(v: View, ops: seq<Op>)
    decreases |ops|
  {
    ops == [] || (Allowed(v, ops[0]) && AllAllowed(Apply(v, ops[0]), ops[1..]))
  }

  function ApplyAll(v: View, ops: seq<Op>): View
    requires AllAllowed(v, ops)
    decreases |ops|
  {
    if ops == [] then v else ApplyAll(Apply(v, ops[0]), ops[1..])
  }

  lemma ApplyFirst(v: View, op: Op, rest: seq<Op>)
    requires Allowed(v, op) && AllAllowed(Apply(v, op), rest)
    ensures AllAllowed(v, [op] + rest)
    ensures ApplyAll(v, [op] + rest) == ApplyAll(Apply(v, op), rest)
  {
    assert ([op] + rest)[0] == op && ([op] + rest)[1..] == rest;
  }

  // ---------------------------------------------------------------- the object

  class Buffer {
    var buffer_: seq<Byte>
    var readerIndex_: nat
    var writerIndex_: nat

    ghost predicate Valid()
      reads this
    {
      readerIndex_ <= writerIndex_ <= |buffer_| && CHEAP_PREPEND <= |buffer_|
    }

    ghost function Content(): seq<Byte>
      reads this
      requires Valid()
    {
      buffer_[readerIndex_..writerIndex_]
    }

    constructor (initialSize: nat)
      ensures Valid() && Content() == []
      ensures readerIndex_ == CHEAP_PREPEND && |buffer_| == CHEAP_PREPEND + initialSize
    {
      buffer_ := seq(CHEAP_PREPEND + initialSize, _ => 0);
      readerIndex_, writerIndex_ := CHEAP_PREPEND, CHEAP_PREPEND;
    }

    function ReadableBytes(): nat
      reads this
      requires Valid()
    {
      writerIndex_ - readerIndex_
    }

    function WritableBytes(): nat
      reads this
      requires Valid()
    {
      |buffer_| - writerIndex_
    }

    function PrependableBytes(): nat
      reads this
    {
      readerIndex_
    }

    method RetrieveAll()
      requires Valid()
      modifies this`readerIndex_, this`writerIndex_
      ensures Valid() && Content() == [] && PrependableBytes() == CHEAP_PREPEND
    {
      readerIndex_, writerIndex_ := CHEAP_PREPEND, CHEAP_PREPEND;
    }

    method Retrieve(len: nat)
      requires Valid() && len <= ReadableBytes()
      modifies this`readerIndex_, this`writerIndex_
      ensures Valid() && Content() == old(Content())[len..]
      ensures PrependableBytes() == if len < old(ReadableBytes()) then old(PrependableBytes()) + len else CHEAP_PREPEND
    {
      if len < ReadableBytes() {
        readerIndex_ := readerIndex_ + len;
      } else {
        RetrieveAll();
      }
    }

    method RetrieveAsString(len: nat) returns (result: seq<Byte>)
      requires Valid() && len <= ReadableBytes()
      modifies this`readerIndex_, this`writerIndex_
      ensures Valid() && old(Content()) == result + Content() && |result| == len
    {
      result := buffer_[readerIndex_..readerIndex_ + len];
      Retrieve(len);
    }

    /** std::copy to a lower place, byte by byte from the front: source and target may overlap. */
    method CopyDown(first: nat, last: nat, target: nat)
      requires target <= first <= last <= |buffer_|
      modifies this`buffer_
      ensures |buffer_| == |old(buffer_)| && buffer_[..target] == old(buffer_)[..target]
      ensures buffer_[target..target + last - first] == old(buffer_)[first..last]
      ensures buffer_[target + last - first..] == old(buffer_)[target + last - first..]
    {
      ghost var was := buffer_;
      for i := 0 to last - first
        invariant |buffer_| == |was| && buffer_[..target] == was[..target]
        invariant buffer_[target..target + i] == was[first..first + i]
        invariant buffer_[target + i..] == was[target + i..]
      {
        ghost var before := buffer_;
        assert before[target + i..][first - target] == was[target + i..][first - target];
        buffer_ := buffer_[target + i := buffer_[first + i]];
        assert buffer_[target..target + i + 1] == before[target..target + i] + [was[first + i]];
        assert buffer_[target + i + 1..] == before[target + i..][1..];
      }
    }

    /** Called when the free space behind the writer is too small. */
    method MakeSpace(len: nat)
      requires Valid() && WritableBytes() < len
      modifies this
      ensures Valid() && Content() == old(Content()) && WritableBytes() >= len
      ensures || PrependableBytes() == old(PrependableBytes())
              || PrependableBytes() == CHEAP_PREPEND <= old(PrependableBytes())
      ensures |buffer_| == |old(buffer_)| || |old(buffer_)| < |buffer_| <= ReadableBytes() + 2 * len + 7
    {
      if WritableBytes() + PrependableBytes() < len + CHEAP_PREPEND {
        buffer_ := buffer_ + seq(writerIndex_ + len - |buffer_|, _ => 0);
      } else {
        assert CHEAP_PREPEND < readerIndex_;
        var readable := ReadableBytes();
        CopyDown(readerIndex_, writerIndex_, CHEAP_PREPEND);
        readerIndex_ := CHEAP_PREPEND;
        writerIndex_ := readerIndex_ + readable;
        assert readable == ReadableBytes();
      }
    }

    method EnsureWritableBytes(len: nat)
      requires Valid()
      modifies this
      ensures Valid() && Content() == old(Content()) && WritableBytes() >= len
      ensures || PrependableBytes() == old(PrependableBytes())
              || PrependableBytes() == CHEAP_PREPEND <= old(PrependableBytes())
      ensures |buffer_| == |old(buffer_)| || |old(buffer_)| < |buffer_| <= ReadableBytes() + 2 * len + 7
      ensures old(WritableBytes()) >= len ==> unchanged(this)
    {
      if WritableBytes() < len {
        MakeSpace(len);
      }
      assert WritableBytes() >= len;
    }

    method Append(data: seq<Byte>)
      requires Valid()
      modifies this
      ensures Valid() && Content() == old(Content()) + data
      ensures || PrependableBytes() == old(PrependableBytes())
              || PrependableBytes() == CHEAP_PREPEND <= old(PrependableBytes())
      ensures |buffer_| == |old(buffer_)| || |old(buffer_)| < |buffer_| <= old(ReadableBytes()) + 2 * |data| + 7
      ensures old(WritableBytes()) >= |data| ==> |buffer_| == |old(buffer_)| && readerIndex_ == old(readerIndex_)
    {
      EnsureWritableBytes(|data|);
      buffer_ := buffer_[..writerIndex_] + data + buffer_[writerIndex_ + |data|..];
      HasWritten(|data|);
    }

    method HasWritten(len: nat)
      requires Valid() && len <= WritableBytes()
      modifies this`writerIndex_
      ensures Valid() && writerIndex_ == old(writerIndex_) + len
    {
      writerIndex_ := writerIndex_ + len;
    }

    method Unwrite(len: nat)
      requires Valid() && len <= ReadableBytes()
      modifies this`writerIndex_
      ensures Valid() && Content() == old(Content())[..|old(Content())| - len]
    {
      writerIndex_ := writerIndex_ - len;
      assert Content() == old(Content())[..writerIndex_ - readerIndex_];
    }

    method Prepend(data: seq<Byte>)
      requires Valid() && |data| <= PrependableBytes()
      modifies this`buffer_, this`readerIndex_
      ensures Valid() && Content() == data + old(Content())
      ensures PrependableBytes() == old(PrependableBytes()) - |data|
    {
      readerIndex_ := readerIndex_ - |data|;
      buffer_ := buffer_[..readerIndex_] + data + buffer_[readerIndex_ + |data|..];
    }

    method Swap(rhs: Buffer)
      modifies this, rhs
      ensures buffer_ == old(rhs.buffer_) && rhs.buffer_ == old(buffer_)
      ensures readerIndex_ == old(rhs.readerIndex_) && rhs.readerIndex_ == old(readerIndex_)
      ensures writerIndex_ == old(rhs.writerIndex_) && rhs.writerIndex_ == old(writerIndex_)
    {
      buffer_, rhs.buffer_ := rhs.buffer_, buffer_;
      readerIndex_, rhs.readerIndex_ := rhs.readerIndex_, readerIndex_;
      writerIndex_, rhs.writerIndex_ := rhs.writerIndex_, writerIndex_;
    }

    method Shrink(reserve: nat)
      requires Valid()
      modifies this
      ensures Valid() && Content() == old(Content()) && PrependableBytes() == CHEAP_PREPEND
      ensures WritableBytes() >= reserve
    {
      var other := new Buffer(INITIAL_SIZE);
      other.EnsureWritableBytes(ReadableBytes() + reserve);
      other.Append(buffer_[readerIndex_..writerIndex_]);
      Swap(other);
    }

    /** `data` is what readv delivers, in order, into the free space and then the extra area; `n` is
        its result, or -1 when it fails. The kernel never delivers more than the space it was given. */
    method ReadFd(failed: bool, data: seq<Byte>) returns (n: int)
      requires Valid()
      requires |data| <= WritableBytes() + (if WritableBytes() < EXTRA then EXTRA else 0)
      modifies this
      ensures Valid() && (failed ==> n == -1 && unchanged(this))
      ensures !failed ==> n == |data| && Content() == old(Content()) + data
      ensures || PrependableBytes() == old(PrependableBytes())
              || PrependableBytes() == CHEAP_PREPEND <= old(PrependableBytes())
      ensures |buffer_| == |old(buffer_)| || |old(buffer_)| < |buffer_| <= old(ReadableBytes()) + 2 * |data| + 7
    {
      n := if failed then -1 else |data|;
      var writable := WritableBytes();
      if n < 0 {
        return;
      } else if n <= writable {
        buffer_ := buffer_[..writerIndex_] + data + buffer_[writerIndex_ + n..];
        writerIndex_ := writerIndex_ + n;
      } else {
        buffer_ := buffer_[..writerIndex_] + data[..writable];
        writerIndex_ := |buffer_|;
        assert Content() == old(Content()) + data[..writable];
        Append(data[writable..]);
        assert data == data[..writable] + data[writable..];
      }
    }

    // Typed integers; `width` is the size of the C++ type.

    method AppendInt(x: int, width: nat)
      requires Valid() && Fits(x, width)
      modifies this
      ensures Valid() && Content() == old(Content()) + Encode(x, width)
    {
      Append(Encode(x, width));
    }

    method PrependInt(x: int, width: nat)
      requires Valid() && Fits(x, width) && width <= PrependableBytes()
      modifies this`buffer_, this`readerIndex_
      ensures Valid() && Content() == Encode(x, width) + old(Content())
    {
      Prepend(Encode(x, width));
    }

    method PeekInt(width: nat) returns (x: int)
      requires Valid() && width <= ReadableBytes()
      ensures x == Decode(Content()[..width])
    {
      assert buffer_[readerIndex_..readerIndex_ + width] == Content()[..width];
      x := Decode(buffer_[readerIndex_..readerIndex_ + width]);
    }

    method ReadInt(width: nat) returns (x: int)
      requires Valid() && width <= ReadableBytes()
      modifies this`readerIndex_, this`writerIndex_
      ensures Valid() && x == Decode(old(Content())[..width]) && Content() == old(Content())[width..]
    {
      x := PeekInt(width);
      Retrieve(width);
    }

    /** Reads of the given widths as long as enough bytes are left. */
    method ReadInts(widths: seq<nat>) returns (values: seq<int>)
      requires Valid()
      modifies this`readerIndex_, this`writerIndex_
      ensures Valid() && (values, Content()) == ReadAll(old(Content()), widths)
    {
      values := [];
      var i := 0;
      ghost var all := ReadAll(Content(), widths);
      assert widths[0..] == widths && values + all.0 == all.0;
      while i < |widths| && widths[i] <= ReadableBytes()
        invariant i <= |widths| && Valid()
        invariant all == (values + ReadAll(Content(), widths[i..]).0, ReadAll(Content(), widths[i..]).1)
        decreases |widths| - i
      {
        assert widths[i..][0] == widths[i] && widths[i..][1..] == widths[i + 1..];
        ghost var rest := ReadAll(Content(), widths[i..]).0;
        var x := ReadInt(widths[i]);
        Associate(values, [x], rest[1..]);
        assert rest == [x] + rest[1..];
        values := values + [x];
        i := i + 1;
      }
      assert ReadAll(Content(), widths[i..]) == ([], Content());
      assert values + [] == values;
    }

    // ---------------------------------------------------------------- refinement

    /** The buffer holds the queue's bytes and at least its room for a header. */
    ghost predicate Refines(v: View)
      reads this
    {
      Valid() && Content() == v.content && v.room <= PrependableBytes() && v.room <= CHEAP_PREPEND
    }

    method Execute(op: Op, ghost v: View)
      requires Refines(v) && Allowed(v, op)
      modifies this
      ensures Refines(Apply(v, op))
    {
      match op {
        case Append(data) => Append(data);
        case Receive(incoming) => var _ := ReadFd(false, incoming);
        case Prepend(header) => Prepend(header);
        case Retrieve(len) => Retrieve(len);
        case Unwrite(back) => Unwrite(back);
        case Shrink(reserve) => Shrink(reserve);
      }
    }

    /** Every sequence of operations the byte queue allows runs without a failed assertion, and leaves
        the bytes the queue would hold. */
    method ExecuteAll(ops: seq<Op>, ghost v: View)
      requires Refines(v) && AllAllowed(v, ops)
      modifies this
      ensures Refines(ApplyAll(v, ops))
    {
      ghost var now := v;
      for i := 0 to |ops|
        invariant Refines(now) && AllAllowed(now, ops[i..])
        invariant ApplyAll(now, ops[i..]) == ApplyAll(v, ops)
      {
        assert ops[i..][0] == ops[i] && ops[i..][1..] == ops[i + 1..];
        Execute(ops[i], now);
        now := Apply(now, ops[i]);
      }
    }
  }

  // ---------------------------------------------------------------- framing

  /** Append a body to an empty queue, prepend a header that fits, append more. */
  lemma FrameContent(body: seq<Byte>, header: seq<Byte>, rest: seq<Byte>)
    requires |header| <= CHEAP_PREPEND
    ensures var ops := [Op.Append(body), Op.Prepend(header), Op.Append(rest)];
            && AllAllowed(View([], CHEAP_PREPEND), ops)
            && ApplyAll(View([], CHEAP_PREPEND), ops).content == header + body + rest
  {
    var v0, v1, v2 := View([], CHEAP_PREPEND), View(body, CHEAP_PREPEND), View(header + body, CHEAP_PREPEND - |header|);
    assert [] + body == body;
    var last := [Op.Append(rest)];
    ApplyFirst(v2, Op.Append(rest), []);
    assert last == [Op.Append(rest)] + [];
    ApplyFirst(v1, Op.Prepend(header), last);
    assert Apply(v1, Op.Prepend(header)) == v2;
    ApplyFirst(v0, Op.Append(body), [Op.Prepend(header)] + last);
    assert [Op.Append(body), Op.Prepend(header), Op.Append(rest)] == [Op.Append(body)] + ([Op.Prepend(header)] + last);
  }

  /** A record appended to an empty queue, its length prepended in an integer of `size` bytes, and more bytes behind it:
      the reader gets the length, then the fields, then what follows. */
  lemma FramedRecordRoundTrip(fields: seq<Field>, size: nat, rest: seq<Byte>)
    requires forall i :: 0 <= i < |fields| ==> ValidField(fields[i])
    requires size <= CHEAP_PREPEND && Fits(|EncodeAll(fields)|, size)
    ensures var body := EncodeAll(fields);
            var ops := [Op.Append(body), Op.Prepend(Encode(|body|, size)), Op.Append(rest)];
            && AllAllowed(View([], CHEAP_PREPEND), ops)
            && ReadAll(ApplyAll(View([], CHEAP_PREPEND), ops).content, [size] + Widths(fields))
                 == ([|body|] + Values(fields), rest)
  {
    var body := EncodeAll(fields);
    var length := Encode(|body|, size);
    FrameContent(body, length, rest);
    assert length + body + rest == length + (body + rest);
    ReadFirst(length, body + rest, Widths(fields));
    EncodeRoundTrip(|body|, size);
    RecordRoundTrip(fields, rest);
  }
}
