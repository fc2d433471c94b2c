/** Replies under construction (src/reply.cpp) and the size-prefixed stream they are sent as. */
module Replies {
  import opened Wire

  class Reply {
    var buffer: Bytes

    constructor ()
      ensures buffer == []
    {
      buffer := [];
    }

    method AddChar(content: Byte)
      modifies this
      ensures buffer == old(buffer) + [content]
    {
      buffer := buffer + [content];
    }

    method AddInt(content: int)
      modifies this
      ensures buffer == old(buffer) + [ToChar(content)]
    {
      buffer := buffer + [ToChar(content)];
    }

    method AddBool(content: bool)
      modifies this
      ensures buffer == old(buffer) + EmitValue(BoolValue(content))
    {
      if content {
        buffer := buffer + [1];
      } else {
        buffer := buffer + [0];
      }
    }

    /** floatToByteArray: the four bytes as they lie in memory. */
    method AddFloat(content: Single)
      modifies this
      ensures buffer == old(buffer) + EmitValue(FloatValue(content))
    {
      var memory := [content.b0, content.b1, content.b2, content.b3];
      for i := 0 to 4
        invariant buffer == old(buffer) + memory[..i]
      {
        buffer := buffer + [memory[i]];
      }
    }

    /** A C string without its length. */
    method AddPlainText(content: Bytes)
      modifies this
      ensures buffer == old(buffer) + CStr(content)
    {
      for i := 0 to StrLen(content)
        invariant buffer == old(buffer) + content[..i]
      {
        buffer := buffer + [content[i]];
      }
    }

    /** The length is that of the C string, so everything from the first NUL on is dropped, and the
        length is cut to a char. */
    method AddString(content: Bytes)
      modifies this
      ensures buffer == old(buffer) + EncodeString(content)
    {
      var length := StrLen(content);
      buffer := buffer + [ToChar(length)];
      for i := 0 to length
        invariant buffer == old(buffer) + [ToChar(length)] + content[..i]
      {
        buffer := buffer + [content[i]];
      }
    }

    /** The overload that the getter's type selects in the emit tables. */
    method AddValue(content: Value)
      modifies this
      ensures buffer == old(buffer) + EmitValue(content)
    {
      match content
      case BoolValue(b) => AddBool(b);
      case IntValue(n) => AddInt(n);
      case FloatValue(f) => AddFloat(f);
    }

    method GetBufferSize() returns (size: nat)
      ensures size == |buffer|
    {
      size := |buffer|;
    }

    method AddSizeByte()
      modifies this
      ensures buffer == Frame(old(buffer))
    {
      var size := IntToByteArray(|buffer|);
      buffer := size + buffer;
    }
  }

  function Power256(i: nat): (n: nat)
    ensures n > 0
  {
    if i == 0 then 1 else 256 * Power256(i - 1)
  }

  /** Fills the array from its last element to its first with the low bytes of the value. */
  method IntToByteArray(value: int) returns (bytes: Bytes)
    ensures bytes == SizeBytes(value)
  {
    var cells := new Byte[4](_ => 0);
    for i := 0 to 4
      invariant forall k :: 0 <= k < i ==> cells[3 - k] == ToChar(value / Power256(k))
    {
      cells[3 - i] := ToChar(value / Power256(i));
    }
    bytes := cells[..];
    assert Power256(3) == 0x100_0000 && Power256(2) == 0x1_0000 && Power256(1) == 0x100;
  }

  /** The four size bytes, most significant first. */
  function SizeBytes(value: int): (bytes: Bytes)
    ensures |bytes| == 4
  {
    [ToChar(value / 0x100_0000), ToChar(value / 0x1_0000), ToChar(value / 0x100), ToChar(value)]
  }

  function Frame(m: Bytes): Bytes
  {
    SizeBytes(|m|) + m
  }

  /** The bytes a queue of replies puts on the connection, in queue order. */
  function Stream(queue: seq<Bytes>): Bytes
  {
    if queue == [] then [] else Frame(queue[0]) + Stream(queue[1..])
  }

  /** do_write: prefix the front reply, send it, drop it, until the queue is empty. */
  method DoWrite(queue: seq<Bytes>) returns (sent: Bytes)
    ensures sent == Stream(queue)
  {
    sent := [];
    var replies := queue;
    while |replies| > 0
      invariant sent + Stream(replies) == Stream(queue)
    {
      var current := new Reply();
      current.buffer := replies[0];
      current.AddSizeByte();
      sent := sent + current.buffer;
      replies := replies[1..];
    }
  }

  function BigEndian(b: Bytes): nat
    requires |b| == 4
  {
    ((Unsigned(b[0]) * 256 + Unsigned(b[1])) * 256 + Unsigned(b[2])) * 256 + Unsigned(b[3])
  }

  /** The receiving side: a big-endian size, then that many bytes, repeatedly. */
  function Unframe(s: Bytes): Option<seq<Bytes>>
  {
    if s == [] then Some([])
    else if |s| < 4 then None
    else
      var size := BigEndian(s[..4]);
      if |s| < 4 + size then None
      else
        match Unframe(s[4 + size..])
        case None => None
        case Some(rest) => Some([s[4..4 + size]] + rest)
  }

  lemma UnsignedOfToChar(n: int)
    ensures Unsigned(ToChar(n)) == n % 256
  {
  }

  lemma {:induction false} SizeRoundTrip(n: nat)
    requires n < 0x8000_0000
    ensures BigEndian(SizeBytes(n)) == n
    ensures var s := SizeBytes(n);
            && (s[0] as int) % 256 == n / 0x100_0000 && (s[1] as int) % 256 == n / 0x1_0000 % 256
            && (s[2] as int) % 256 == n / 0x100 % 256 && (s[3] as int) % 256 == n % 256
  {
    var a := n / 0x100;
    var b := a / 0x100;
    var c := b / 0x100;
    assert n / 0x1_0000 == b && n / 0x100_0000 == c;
    UnsignedOfToChar(c);
    UnsignedOfToChar(b);
    UnsignedOfToChar(a);
    UnsignedOfToChar(n);
    var s := SizeBytes(n);
    assert Unsigned(s[0]) == c && Unsigned(s[1]) == b % 256 && Unsigned(s[2]) == a % 256;
  }

  /** The stream splits back into the queue that produced it. */
  lemma {:induction false} UnframeStream(queue: seq<Bytes>)
    requires forall m :: m in queue ==> |m| < 0x8000_0000
    ensures Unframe(Stream(queue)) == Some(queue)
  {
    if queue != [] {
      var m, s := queue[0], Stream(queue);
      SizeRoundTrip(|m|);
      assert s[..4] == SizeBytes(|m|);
      assert s[4..4 + |m|] == m;
      assert s[4 + |m|..] == Stream(queue[1..]);
      UnframeStream(queue[1..]);
      assert BigEndian(s[..4]) == |m|;
      assert queue == [m] + queue[1..];
    }
  }

  /** No two queues look the same on the connection. */
  lemma {:induction false} StreamInjective(a: seq<Bytes>, b: seq<Bytes>)
    requires forall m :: m in a ==> |m| < 0x8000_0000
    requires forall m :: m in b ==> |m| < 0x8000_0000
    ensures Stream(a) == Stream(b) <==> a == b
  {
    UnframeStream(a);
    UnframeStream(b);
  }
}
