/** The bytes of the game protocol: signed chars, C strings, the variable table of
    include/shared.hpp, and the tag/payload record format read by HandleUpdate and
    written by AddOtherClientVariables and AddChangedVariables. */
module Wire {

  datatype Option<+T> = None | Some(value: T)

  // ---------------------------------------------------------------- bytes and strings

  /** A C++ `char` on the server's platform: eight bits, signed. */
  type Byte = b: int | -128 <= b < 128
  type Bytes = seq<Byte>

  /** Conversion of an int to char: keeps the low eight bits. */
  function ToChar(n: int): (c: Byte)
    ensures (n - c) % 256 == 0
  {
    (n + 128) % 256 - 128
  }

  /** strlen: the index of the first NUL, or the length. */
  function StrLen(s: Bytes): (n: nat)
    ensures n <= |s| && 0 !in s[..n]
    ensures n < |s| ==> s[n] == 0
  {
    if |s| == 0 || s[0] == 0 then 0 else 1 + StrLen(s[1..])
  }

  /** What c_str() shows of a string: everything before the first NUL. */
  function CStr(s: Bytes): Bytes
  {
    s[..StrLen(s)]
  }

  /** The length-prefixed form written by add_to_buffers(string). */
  function EncodeString(s: Bytes): (e: Bytes)
    ensures |e| == 1 + StrLen(s)
  {
    [ToChar(StrLen(s))] + CStr(s)
  }

  lemma {:induction false} StrLenUnique(s: Bytes, n: nat)
    requires n <= |s| && 0 !in s[..n] && (n < |s| ==> s[n] == 0)
    ensures StrLen(s) == n
  {
    if n > 0 {
      assert s[..n][0] == s[0];
      assert s[1..][..n - 1] == s[..n][1..];
      StrLenUnique(s[1..], n - 1);
    }
  }

  // ---------------------------------------------------------------- received packets

  /** A receive buffer. `bytes` are the transferred bytes; `beyond` is whatever the memory after
      them holds, which the handlers read when a packet is cut short. */
  datatype Packet = Packet(bytes: Bytes, beyond: nat -> Byte)
  {
    function At(i: nat): Byte {
      if i < |bytes| then bytes[i] else beyond(i)
    }
  }

  /** The number of characters GetString reads: a negative length byte reads none. */
  function StringSize(p: Packet, i: nat): nat
  {
    if p.At(i) > 0 then p.At(i) else 0
  }

  function ReadString(p: Packet, i: nat): (s: Bytes)
    ensures |s| == StringSize(p, i) <= 127
  {
    seq<Byte>(StringSize(p, i), k requires 0 <= k => p.At(i + 1 + k))
  }

  /** A complete message of known bytes, as the game client sees it. */
  function Whole(m: Bytes): Packet
  {
    Packet(m, i => 0)
  }

  /** How many characters of a string of n characters the signed length byte announces. */
  function LengthRead(n: nat): nat
  {
    if ToChar(n) > 0 then ToChar(n) else 0
  }

  /** A string written by add_to_buffers and read by GetString comes back with everything after
      the first NUL cut off, if what is left has at most 127 characters. Of a longer one no more comes
      back than the length byte, which wraps, announces. */
  lemma ReadStringOfEncodeString(p: Packet, i: nat, s: Bytes)
    requires i + |EncodeString(s)| <= |p.bytes|
    requires p.bytes[i..i + |EncodeString(s)|] == EncodeString(s)
    ensures LengthRead(StrLen(s)) <= StrLen(s) && ReadString(p, i) == CStr(s)[..LengthRead(StrLen(s))]
    ensures ReadString(p, i) == CStr(s) <==> StrLen(s) <= 127
  {
    var e, n := EncodeString(s), LengthRead(StrLen(s));
    var slice := p.bytes[i..i + |e|];
    assert slice[0] == p.bytes[i];
    LengthReadFits(StrLen(s));
    forall k | 0 <= k < n
      ensures p.At(i + 1 + k) == CStr(s)[k]
    {
      assert slice[1 + k] == p.bytes[i + 1 + k];
      assert e[1 + k] == CStr(s)[k];
    }
    assert |ReadString(p, i)| == n;
    assert CStr(s)[..|CStr(s)|] == CStr(s);
  }

  lemma LengthReadFits(n: nat)
    ensures LengthRead(n) <= n && (LengthRead(n) == n <==> n <= 127)
  {
  }

  /** A message of a type byte, a string and the rest: what a reader finds after the type byte. */
  lemma HeadRead(m: Bytes, tag: Byte, s: Bytes, rest: Bytes)
    requires StrLen(s) <= 127 && m == [tag] + EncodeString(s) + rest
    ensures ReadString(Whole(m), 1) == CStr(s)
    ensures 2 + |CStr(s)| <= |m| && m[2 + |CStr(s)|..] == rest
  {
    var head := EncodeString(s);
    hide EncodeString, StrLen, ReadString;
    assert m[1..1 + |head|] == head;
    ReadStringOfEncodeString(Whole(m), 1, s);
  }

  /** Inside a frame a string survives the trip exactly when it has no NUL and at most 127
      characters. `tail` is the rest of the frame. */
  lemma {:induction false} StringSurvivesIff(s: Bytes, tail: Bytes, beyond: nat -> Byte)
    ensures ReadString(Packet(EncodeString(s) + tail, beyond), 0) == s <==> 0 !in s && |s| <= 127
  {
    var p := Packet(EncodeString(s) + tail, beyond);
    var r := ReadString(p, 0);
    if |s| <= 127 {
      assert p.bytes[0..|EncodeString(s)|] == EncodeString(s);
      ReadStringOfEncodeString(p, 0, s);
      if 0 !in s {
        StrLenUnique(s, |s|);
      }
      assert s[..|s|] == s;
    }
  }

  // ---------------------------------------------------------------- variables and values

  const CROUCH: Byte := 0
  const BLOOD_DAMAGE: Byte := 6
  const BLOOD_HEALTH: Byte := 7
  const BLOCK_HEALTH: Byte := 8
  const TEMP_HEALTH: Byte := 9
  const PERMANENT_HEALTH: Byte := 10
  const BLOOD_AMOUNT: Byte := 11
  const RECOVERY_TIME: Byte := 12
  const ROLL_RECOVERY_TIME: Byte := 13
  const KNOCKED_OUT: Byte := 14
  const CUT_THROAT: Byte := 18
  const POSITION_X: Byte := 19
  const POSITION_Y: Byte := 20
  const POSITION_Z: Byte := 21
  const REMOVE_BLOOD: Byte := 24
  const VELOCITY_X: Byte := 25
  const VELOCITY_Y: Byte := 26
  const VELOCITY_Z: Byte := 27

  datatype Kind = Flag | Small | Float | Bare

  /** Tag 24 (remove_blood) carries a payload only in UpdateSelf messages. */
  datatype Grammar = PeerGrammar | SelfGrammar

  function KindIn(g: Grammar, t: Byte): Kind
  {
    if 0 <= t <= 5 || t == 18 then Flag
    else if 6 <= t <= 13 || 19 <= t <= 23 || 25 <= t <= 27 then Float
    else if 14 <= t <= 17 then Small
    else if t == 24 && g == SelfGrammar then Flag
    else Bare
  }

  /** The switch of HandleUpdate: what the getter its case calls reads. It has no case for remove_blood. */
  function ReadKind(t: Byte): Kind
  {
    match t
    case 0 | 1 | 2 | 3 | 4 | 5 => Flag
    case 6 | 7 | 8 | 9 | 10 | 11 | 12 | 13 => Float
    case 14 | 15 | 16 | 17 => Small
    case 18 => Flag
    case 19 | 20 | 21 | 22 | 23 => Float
    case 25 | 26 | 27 => Float
    case _ => Bare
  }

  /** The switch of AddOtherClientVariables: the overload of add_to_buffers that its case calls, by the
      type of the accessor in include/client.hpp. */
  function WrittenKind(t: Byte): Kind
  {
    match t
    case 0 | 1 | 2 | 3 | 4 | 5 | 18 => Flag
    case 6 | 7 | 8 | 9 | 10 | 11 | 12 | 13 | 19 | 20 | 21 | 22 | 23 | 25 | 26 | 27 => Float
    case 14 | 15 | 16 | 17 => Small
    case _ => Bare
  }

  /** What one switch writes the other reads, for every tag. */
  lemma TablesAgree(t: Byte)
    ensures WrittenKind(t) == ReadKind(t) == KindIn(PeerGrammar, t)
  {
  }

  function Width(k: Kind): nat
  {
    match k
    case Flag => 1
    case Small => 1
    case Float => 4
    case Bare => 0
  }

  /** A float: its four bytes in host (little-endian) order; no arithmetic is ever done on it. */
  datatype Single = Single(b0: Byte, b1: Byte, b2: Byte, b3: Byte)

  /** A stored variable. */
  datatype Value =
    | BoolValue(b: bool)
    | IntValue(n: Byte)
    | FloatValue(f: Single)

  const ZERO := FloatValue(Single(0, 0, 0, 0))
  const ONE := FloatValue(Single(0, 0, -128, 63))
  const TEN := FloatValue(Single(0, 0, 32, 65))
  const AWAKE := IntValue(0)

  predicate Fits(v: Value, k: Kind)
  {
    match k
    case Flag => v.BoolValue?
    case Small => v.IntValue?
    case Float => v.FloatValue?
    case Bare => false
  }

  function Unsigned(b: Byte): (u: nat)
    ensures u < 256
  {
    if b >= 0 then b else b + 256
  }

  /** The comparison `f <= 0.0f` on the bits of an IEEE 754 single: sign bit set or zero, not NaN. */
  predicate NonPositive(v: Value)
  {
    v.FloatValue? &&
    var Single(b0, b1, b2, b3) := v.f;
    var exponent := Unsigned(b3) % 128 * 2 + Unsigned(b2) / 128;
    var mantissa := Unsigned(b2) % 128 * 65536 + Unsigned(b1) * 256 + Unsigned(b0);
    !(exponent == 255 && mantissa != 0) &&
    (b3 < 0 || (exponent == 0 && mantissa == 0))
  }

  /** The byte order swap between a received float (GetFloat) and an emitted one (floatToByteArray). */
  function Swap(v: Value): (w: Value)
    ensures w.BoolValue? == v.BoolValue? && w.IntValue? == v.IntValue?
  {
    match v
    case FloatValue(f) => FloatValue(Single(f.b3, f.b2, f.b1, f.b0))
    case _ => v
  }

  // ---------------------------------------------------------------- records

  datatype RawRecord = RawRecord(tag: Byte, value: Option<Value>)

  /** A record whose value, if any, has the type of the field its tag names. */
  type Record = r: RawRecord | r.value.Some? ==> Fits(r.value.value, KindIn(SelfGrammar, r.tag))
    witness RawRecord(REMOVE_BLOOD, None)

  predicate InGrammar(g: Grammar, r: Record)
  {
    if KindIn(g, r.tag) == Bare then r.value.None?
    else r.value.Some? && Fits(r.value.value, KindIn(g, r.tag))
  }

  /** The byte loop of the encoders: one char for a bool or int, four host-order chars for a float. */
  function EmitValue(v: Value): Bytes
  {
    match v
    case BoolValue(b) => [if b then 1 else 0]
    case IntValue(n) => [n]
    case FloatValue(f) => [f.b0, f.b1, f.b2, f.b3]
  }

  function EmitRecord(r: Record): (e: Bytes)
    ensures |e| >= 1
  {
    [r.tag] + if r.value.Some? then EmitValue(r.value.value) else []
  }

  function Encode(rs: seq<Record>): (e: Bytes)
    ensures |e| >= |rs|
  {
    if rs == [] then [] else EmitRecord(rs[0]) + Encode(rs[1..])
  }

  lemma {:induction false} EncodeAppend(rs: seq<Record>, r: Record)
    ensures Encode(rs + [r]) == Encode(rs) + EmitRecord(r)
  {
    hide EmitRecord;
    if rs == [] {
      assert rs + [r] == [r];
    } else {
      EncodeAppend(rs[1..], r);
      assert (rs + [r])[1..] == rs[1..] + [r];
    }
  }

  function SwapRecord(r: Record): Record
  {
    RawRecord(r.tag, if r.value.Some? then Some(Swap(r.value.value)) else None)
  }

  function SwapAll(rs: seq<Record>): (ss: seq<Record>)
    ensures |ss| == |rs|
  {
    seq(|rs|, i requires 0 <= i < |rs| => SwapRecord(rs[i]))
  }

  /** GetFloat: the wire order is the reverse of the host order. */
  function ReadSingle(p: Packet, i: nat): Single
  {
    Single(p.At(i + 3), p.At(i + 2), p.At(i + 1), p.At(i))
  }

  /** GetBool, GetInt and GetFloat at index i. */
  function ReadValue(p: Packet, i: nat, k: Kind): (v: Value)
    requires k != Bare
    ensures Fits(v, k)
  {
    match k
    case Flag => BoolValue(p.At(i) == 1)
    case Small => IntValue(p.At(i))
    case Float => FloatValue(ReadSingle(p, i))
  }

  function ReadRecord(g: Grammar, p: Packet, i: nat): (r: Record)
    ensures InGrammar(g, r) && r.tag == p.At(i)
  {
    var t := p.At(i);
    var k := KindIn(g, t);
    RawRecord(t, if k == Bare then None else Some(ReadValue(p, i + 1, k)))
  }

  function NextIndex(g: Grammar, p: Packet, i: nat): (j: nat)
    ensures j > i
  {
    i + 1 + Width(KindIn(g, p.At(i)))
  }

  /** The records the decode loop sees from index i on. */
  function Records(g: Grammar, p: Packet, i: nat): (rs: seq<Record>)
    decreases |p.bytes| - i
  {
    if i >= |p.bytes| then [] else [ReadRecord(g, p, i)] + Records(g, p, NextIndex(g, p, i))
  }

  /** Where the decode loop leaves the cursor. */
  function ExitIndex(g: Grammar, p: Packet, i: nat): nat
    decreases |p.bytes| - i
  {
    if i >= |p.bytes| then i else ExitIndex(g, p, NextIndex(g, p, i))
  }

  /** For arbitrary bytes the loop stops at most four bytes past the packet. */
  lemma {:induction false} ExitBounds(g: Grammar, p: Packet, i: nat)
    requires i <= |p.bytes|
    ensures |p.bytes| <= ExitIndex(g, p, i) <= |p.bytes| + 4
    decreases |p.bytes| - i
  {
    if i < |p.bytes| {
      var j := NextIndex(g, p, i);
      if j < |p.bytes| {
        ExitBounds(g, p, j);
      }
    }
  }

  /** Every record handed back is in the grammar, whatever the bytes. */
  lemma {:induction false} RecordsInGrammar(g: Grammar, p: Packet, i: nat)
    ensures forall r :: r in Records(g, p, i) ==> InGrammar(g, r)
    decreases |p.bytes| - i
  {
    if i < |p.bytes| {
      RecordsInGrammar(g, p, NextIndex(g, p, i));
    }
  }

  lemma ReadBackOne(g: Grammar, p: Packet, i: nat, r: Record)
    requires InGrammar(g, r)
    requires i + |EmitRecord(r)| <= |p.bytes|
    requires forall k :: 0 <= k < |EmitRecord(r)| ==> p.bytes[i + k] == EmitRecord(r)[k]
    ensures ReadRecord(g, p, i) == SwapRecord(r)
    ensures NextIndex(g, p, i) == i + |EmitRecord(r)|
  {
    var e := EmitRecord(r);
    assert p.At(i) == e[0] == r.tag;
    if r.value.Some? && r.value.value.FloatValue? {
      assert p.bytes[i + 1] == e[1] && p.bytes[i + 2] == e[2];
      assert p.bytes[i + 3] == e[3] && p.bytes[i + 4] == e[4];
    } else if r.value.Some? {
      assert p.bytes[i + 1] == e[1];
    }
  }

  /** Emitted bytes tokenise into exactly the emitted records, in order, with floats reversed,
      and the cursor stops exactly at the end of the packet. */
  lemma {:induction false} RecordsOfEncode(g: Grammar, p: Packet, i: nat, rs: seq<Record>)
    requires forall r :: r in rs ==> InGrammar(g, r)
    requires i <= |p.bytes| && p.bytes[i..] == Encode(rs)
    ensures Records(g, p, i) == SwapAll(rs)
    ensures ExitIndex(g, p, i) == |p.bytes|
    decreases |rs|
  {
    hide ReadRecord, SwapRecord, KindIn, InGrammar, EmitRecord, NextIndex;
    if rs == [] {
      assert |p.bytes[i..]| == 0;
    } else {
      var e := EmitRecord(rs[0]);
      assert |p.bytes[i..]| == |e| + |Encode(rs[1..])|;
      forall k | 0 <= k < |e|
        ensures p.bytes[i + k] == e[k]
      {
        assert p.bytes[i..][k] == Encode(rs)[k];
      }
      ReadBackOne(g, p, i, rs[0]);
      var j := NextIndex(g, p, i);
      assert p.bytes[j..] == p.bytes[i..][|e|..] == Encode(rs[1..]);
      RecordsOfEncode(g, p, j, rs[1..]);
      assert SwapAll(rs) == [SwapRecord(rs[0])] + SwapAll(rs[1..]);
    }
  }

  lemma SwapAllTwice(rs: seq<Record>)
    ensures SwapAll(SwapAll(rs)) == rs
  {
    forall i | 0 <= i < |rs|
      ensures SwapAll(SwapAll(rs))[i] == rs[i]
    {
      assert SwapAll(rs)[i] == SwapRecord(rs[i]);
    }
  }

  /** The update packet of a game client: any list of records, floats in wire order, behind the
      message type. */
  function UpdatePacket(kind: Byte, rs: seq<Record>): Bytes
  {
    [kind] + Encode(SwapAll(rs))
  }

  lemma SwapKeepsGrammar(g: Grammar, rs: seq<Record>)
    requires forall r :: r in rs ==> InGrammar(g, r)
    ensures forall r :: r in SwapAll(rs) ==> InGrammar(g, r)
  {
    forall i | 0 <= i < |rs|
      ensures InGrammar(g, SwapAll(rs)[i])
    {
      assert rs[i] in rs;
    }
  }

  /** The decode loop recovers exactly the records of a packet and stops at its end. */
  lemma UpdatePacketRoundTrip(kind: Byte, rs: seq<Record>, beyond: nat -> Byte)
    requires forall r :: r in rs ==> InGrammar(PeerGrammar, r)
    ensures var p := Packet(UpdatePacket(kind, rs), beyond);
            Records(PeerGrammar, p, 1) == rs && ExitIndex(PeerGrammar, p, 1) == |p.bytes|
  {
    hide InGrammar, Encode, SwapAll, Records, ExitIndex;
    var p := Packet(UpdatePacket(kind, rs), beyond);
    SwapKeepsGrammar(PeerGrammar, rs);
    assert p.bytes[1..] == Encode(SwapAll(rs));
    RecordsOfEncode(PeerGrammar, p, 1, SwapAll(rs));
    SwapAllTwice(rs);
  }

  /** Memory beyond the packet matters only to a packet whose last record is cut short. */
  lemma {:induction false} StaleOnlyWhenCutShort(g: Grammar, b: Bytes, x: nat -> Byte, y: nat -> Byte, i: nat)
    requires ExitIndex(g, Packet(b, x), i) == |b|
    ensures Records(g, Packet(b, x), i) == Records(g, Packet(b, y), i)
    ensures ExitIndex(g, Packet(b, y), i) == |b|
    decreases |b| - i
  {
    var p, q := Packet(b, x), Packet(b, y);
    if i < |b| {
      var j := NextIndex(g, p, i);
      ExitNotBefore(g, p, j);
      assert forall k :: i <= k < j ==> p.At(k) == q.At(k);
      SameRecord(g, p, q, i);
      StaleOnlyWhenCutShort(g, b, x, y, j);
    }
  }

  lemma {:induction false} ExitNotBefore(g: Grammar, p: Packet, i: nat)
    ensures ExitIndex(g, p, i) >= i
    decreases |p.bytes| - i
  {
    if i < |p.bytes| {
      ExitNotBefore(g, p, NextIndex(g, p, i));
    }
  }

  lemma SameRecord(g: Grammar, p: Packet, q: Packet, i: nat)
    requires forall k :: i <= k < NextIndex(g, p, i) ==> p.At(k) == q.At(k)
    ensures ReadRecord(g, p, i) == ReadRecord(g, q, i) && NextIndex(g, p, i) == NextIndex(g, q, i)
  {
  }

  // ---------------------------------------------------------------- the 28 stored variables

  ghost predicate Typed(m: map<Byte, Value>)
  {
    forall t: Byte :: (t in m <==> 0 <= t < 28) && (t in m ==> Fits(m[t], KindIn(SelfGrammar, t)))
  }

  function DefaultValue(t: Byte): (v: Value)
    requires 0 <= t < 28
    ensures Fits(v, KindIn(SelfGrammar, t))
  {
    if t in {BLOOD_HEALTH, BLOCK_HEALTH, TEMP_HEALTH, PERMANENT_HEALTH} then ONE
    else if t == BLOOD_AMOUNT then TEN
    else match KindIn(SelfGrammar, t)
      case Flag => BoolValue(false)
      case Small => IntValue(0)
      case Float => ZERO
  }

  /** The values set by the constructor's initialiser list. */
  const INITIAL_VARS: map<Byte, Value> := map t: Byte | 0 <= t < 28 :: DefaultValue(t)

  type Vars = m: map<Byte, Value> | Typed(m) witness INITIAL_VARS

  function Store(vars: Vars, r: Record): Vars
  {
    if r.value.Some? then vars[r.tag := r.value.value] else vars
  }

  function StoreAll(vars: Vars, rs: seq<Record>): Vars
  {
    if rs == [] then vars else StoreAll(Store(vars, rs[0]), rs[1..])
  }

  function Tags(rs: seq<Record>): (ts: seq<Byte>)
    ensures |ts| == |rs|
  {
    seq(|rs|, i requires 0 <= i < |rs| => rs[i].tag)
  }

  /** The variables a record list assigns. */
  function Assigned(rs: seq<Record>): set<Byte>
  {
    set r | r in rs && r.value.Some? :: r.tag
  }

  lemma AssignedAreTags(rs: seq<Record>)
    ensures forall t :: t in Assigned(rs) ==> t in Tags(rs)
  {
    forall r | r in rs
      ensures r.tag in Tags(rs)
    {
      var i :| 0 <= i < |rs| && rs[i] == r;
      assert Tags(rs)[i] == r.tag;
    }
  }

  /** The record AddOtherClientVariables or AddChangedVariables writes for variable t. */
  function RecordOf(g: Grammar, vars: Vars, t: Byte): (r: Record)
    ensures InGrammar(g, r) && r.tag == t
  {
    if KindIn(g, t) == Bare then RawRecord(t, None) else RawRecord(t, Some(vars[t]))
  }

  function RecordsFor(g: Grammar, vars: Vars, ts: seq<Byte>): (rs: seq<Record>)
    ensures |rs| == |ts|
  {
    seq(|ts|, i requires 0 <= i < |ts| => RecordOf(g, vars, ts[i]))
  }

  lemma {:induction false} StoreAllAppend(vars: Vars, rs: seq<Record>, r: Record)
    ensures StoreAll(vars, rs + [r]) == Store(StoreAll(vars, rs), r)
    decreases |rs|
  {
    if rs == [] {
      assert rs + [r] == [r];
      assert StoreAll(Store(vars, r), []) == Store(vars, r);
    } else {
      assert (rs + [r])[1..] == rs[1..] + [r];
      StoreAllAppend(Store(vars, rs[0]), rs[1..], r);
    }
  }

  /** A variable keeps its value unless some record assigns it. */
  lemma {:induction false} StoreAllUntouched(vars: Vars, rs: seq<Record>, t: Byte)
    requires 0 <= t < 28 && t !in Assigned(rs)
    ensures StoreAll(vars, rs)[t] == vars[t]
    decreases |rs|
  {
    if rs != [] {
      assert rs[0] in rs;
      assert Assigned(rs[1..]) <= Assigned(rs);
      StoreAllUntouched(Store(vars, rs[0]), rs[1..], t);
    }
  }

  /** The last assignment of a variable in the list wins. */
  lemma {:induction false} StoreAllLast(vars: Vars, rs: seq<Record>, i: nat)
    requires i < |rs| && rs[i].value.Some?
    requires forall j :: i < j < |rs| && rs[j].value.Some? ==> rs[j].tag != rs[i].tag
    ensures StoreAll(vars, rs)[rs[i].tag] == rs[i].value.value
    decreases |rs|
  {
    if i == 0 {
      StoreAllUntouched(Store(vars, rs[0]), rs[1..], rs[0].tag);
    } else {
      StoreAllLast(Store(vars, rs[0]), rs[1..], i - 1);
    }
  }
}
