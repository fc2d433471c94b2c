/** Reading back what the handlers write, and what they expect to be sent. */
module Messages {
  import opened Wire
  import opened History
  import opened Clients
  import opened Server
  import opened Replication

  /** A string field at index i, and what follows it. */
  lemma StringField(p: Packet, i: nat, s: Bytes, rest: Bytes)
    requires StrLen(s) <= 127 && i <= |p.bytes| && p.bytes[i..] == EncodeString(s) + rest
    ensures ReadString(p, i) == CStr(s)
    ensures AfterString(p, i) <= |p.bytes| && p.bytes[AfterString(p, i)..] == rest
  {
    var e := EncodeString(s);
    hide EncodeString, StrLen, ReadString;
    assert |p.bytes[i..]| == |e| + |rest|;
    assert p.bytes[i..i + |e|] == p.bytes[i..][..|e|] == e;
    ReadStringOfEncodeString(p, i, s);
    assert AfterString(p, i) == i + |e| by {
      assert |ReadString(p, i)| == |CStr(s)|;
    }
    assert p.bytes[i + |e|..] == p.bytes[i..][|e|..];
  }

  /** It is read right if and only if it has at most 127 characters up to its first NUL. */
  lemma StringFieldIff(p: Packet, i: nat, s: Bytes, rest: Bytes)
    requires i <= |p.bytes| && p.bytes[i..] == EncodeString(s) + rest
    ensures ReadString(p, i) == CStr(s) <==> StrLen(s) <= 127
    ensures StrLen(s) <= 127 ==> AfterString(p, i) <= |p.bytes| && p.bytes[AfterString(p, i)..] == rest
    ensures i < |p.bytes|
  {
    var e := EncodeString(s);
    assert |p.bytes[i..]| == |e| + |rest|;
    hide EncodeString, StrLen, ReadString, CStr, AfterString;
    assert p.bytes[i..i + |e|] == p.bytes[i..][..|e|] == e;
    ReadStringOfEncodeString(p, i, s);
    if StrLen(s) <= 127 {
      StringField(p, i, s, rest);
    }
  }

  /** A float field in wire order at index i. */
  lemma FloatField(p: Packet, i: nat, f: Single, rest: Bytes)
    requires i <= |p.bytes| && p.bytes[i..] == EmitValue(FloatValue(f)) + rest
    ensures FloatValue(ReadSingle(p, i)) == Swap(FloatValue(f))
    ensures i + 4 <= |p.bytes| && p.bytes[i + 4..] == rest
  {
    var tail := p.bytes[i..];
    assert |tail| == 4 + |rest|;
    assert tail[0] == p.bytes[i] && tail[1] == p.bytes[i + 1] && tail[2] == p.bytes[i + 2] && tail[3] == p.bytes[i + 3];
    assert p.bytes[i + 4..] == tail[4..];
  }

  // ---------------------------------------------------------------- lists of strings

  function Strings(ss: seq<Bytes>): Bytes
  {
    if ss == [] then [] else EncodeString(ss[0]) + Strings(ss[1..])
  }

  lemma StringsCons(s: Bytes, ss: seq<Bytes>)
    ensures Strings([s] + ss) == EncodeString(s) + Strings(ss) && Strings([]) == []
  {
    hide EncodeString;
    assert ([s] + ss)[1..] == ss;
  }

  /** What n calls of GetString return from index i on, and where they leave the cursor. */
  function ReadStrings(p: Packet, i: nat, n: nat): (ss: seq<Bytes>)
    ensures |ss| == n
    decreases n
  {
    if n == 0 then [] else [ReadString(p, i)] + ReadStrings(p, AfterString(p, i), n - 1)
  }

  function AfterStrings(p: Packet, i: nat, n: nat): nat
    decreases n
  {
    if n == 0 then i else AfterStrings(p, AfterString(p, i), n - 1)
  }

  /** Each string up to its first NUL. */
  function Shown(ss: seq<Bytes>): (cs: seq<Bytes>)
    ensures |cs| == |ss|
  {
    seq(|ss|, k requires 0 <= k < |ss| => CStr(ss[k]))
  }

  predicate Short(ss: seq<Bytes>)
  {
    forall s :: s in ss ==> StrLen(s) <= 127
  }

  /** Strings in a row come back, each up to its first NUL, if and only if none is longer than 127 then. */
  lemma {:induction false} StringsReadBack(p: Packet, i: nat, ss: seq<Bytes>, rest: Bytes)
    requires i <= |p.bytes| && p.bytes[i..] == Strings(ss) + rest
    ensures ReadStrings(p, i, |ss|) == Shown(ss) <==> Short(ss)
    ensures Short(ss) ==> AfterStrings(p, i, |ss|) <= |p.bytes| && p.bytes[AfterStrings(p, i, |ss|)..] == rest
    decreases |ss|
  {
    hide EncodeString, StrLen, CStr, ReadString, AfterString;
    if ss == [] {
      assert Strings(ss) + rest == rest;
    } else {
      var e, others := EncodeString(ss[0]), Strings(ss[1..]) + rest;
      assert p.bytes[i..] == e + others;
      assert Shown(ss) == [CStr(ss[0])] + Shown(ss[1..]);
      assert ss == [ss[0]] + ss[1..];
      StringFieldIff(p, i, ss[0], others);
      if StrLen(ss[0]) <= 127 {
        StringsReadBack(p, AfterString(p, i), ss[1..], rest);
        var read := ReadStrings(p, i, |ss|);
        assert read == [CStr(ss[0])] + ReadStrings(p, AfterString(p, i), |ss| - 1);
        assert read[1..] == ReadStrings(p, AfterString(p, i), |ss| - 1);
        assert Shown(ss)[1..] == Shown(ss[1..]);
      } else {
        assert ReadStrings(p, i, |ss|)[0] == ReadString(p, i) != Shown(ss)[0];
      }
    }
  }

  // ---------------------------------------------------------------- sign-on

  /** The sign-on packet of a game client: five strings and a position in wire order. */
  function SignOnPacket(a: Application, version: Bytes): Bytes
  {
    [SIGN_ON] + (EncodeString(a.username) + (EncodeString(a.character) + (EncodeString(a.levelName) +
    (EncodeString(a.levelPath) + (EncodeString(version) + (EmitValue(Swap(FloatValue(a.posx))) +
    (EmitValue(Swap(FloatValue(a.posy))) + EmitValue(Swap(FloatValue(a.posz))))))))))
  }

  predicate Sendable(s: Bytes)
  {
    0 !in s && |s| <= 127
  }

  lemma SendableReads(s: Bytes)
    requires Sendable(s)
    ensures StrLen(s) <= 127 && CStr(s) == s
  {
    StrLenUnique(s, |s|);
  }

  /** The handler recovers the application, and the version does not matter. */
  lemma {:induction false} SignOnRoundTrip(a: Application, version: Bytes, beyond: nat -> Byte)
    requires Sendable(a.username) && Sendable(a.character) && Sendable(a.levelName) && Sendable(a.levelPath)
    requires Sendable(version)
    ensures ReadApplication(Packet(SignOnPacket(a, version), beyond)) == a
  {
    hide EncodeString, ReadString, EmitValue, Swap, Sendable, StrLen, CStr, StringSize, ReadSingle;
    var p := Packet(SignOnPacket(a, version), beyond);
    SendableReads(a.username);
    SendableReads(a.character);
    SendableReads(a.levelName);
    SendableReads(a.levelPath);
    SendableReads(version);
    var z := EmitValue(Swap(FloatValue(a.posz)));
    var y := EmitValue(Swap(FloatValue(a.posy))) + z;
    var x := EmitValue(Swap(FloatValue(a.posx))) + y;
    var v := EncodeString(version) + x;
    var l := EncodeString(a.levelPath) + v;
    var n := EncodeString(a.levelName) + l;
    var c := EncodeString(a.character) + n;
    assert p.bytes[1..] == EncodeString(a.username) + c;
    StringField(p, 1, a.username, c);
    var i1 := AfterString(p, 1);
    StringField(p, i1, a.character, n);
    var i2 := AfterString(p, i1);
    StringField(p, i2, a.levelName, l);
    var i3 := AfterString(p, i2);
    StringField(p, i3, a.levelPath, v);
    var i4 := AfterString(p, i3);
    StringField(p, i4, version, x);
    var i5 := AfterString(p, i4);
    Position(p, i5, a.posx, a.posy, a.posz);
  }

  /** Three floats in wire order at the end of a packet. */
  lemma Position(p: Packet, i: nat, x: Single, y: Single, z: Single)
    requires i <= |p.bytes|
    requires p.bytes[i..] ==
             EmitValue(Swap(FloatValue(x))) + (EmitValue(Swap(FloatValue(y))) + EmitValue(Swap(FloatValue(z))))
    ensures ReadSingle(p, i) == x && ReadSingle(p, i + 4) == y && ReadSingle(p, i + 8) == z
  {
    hide EmitValue, ReadSingle;
    var xw, yw, zw := Swap(FloatValue(x)).f, Swap(FloatValue(y)).f, Swap(FloatValue(z)).f;
    FloatField(p, i, xw, EmitValue(FloatValue(yw)) + EmitValue(FloatValue(zw)));
    FloatField(p, i + 4, yw, EmitValue(FloatValue(zw)));
    assert EmitValue(FloatValue(zw)) == EmitValue(FloatValue(zw)) + [];
    FloatField(p, i + 8, zw, []);
  }

  // ---------------------------------------------------------------- messages to a player

  /** Three floats in host order at the end of a message. */
  lemma HostPosition(p: Packet, i: nat, x: Single, y: Single, z: Single)
    requires i <= |p.bytes|
    requires p.bytes[i..] == EmitValue(FloatValue(x)) + (EmitValue(FloatValue(y)) + EmitValue(FloatValue(z)))
    ensures Swap(FloatValue(ReadSingle(p, i))) == FloatValue(x)
    ensures Swap(FloatValue(ReadSingle(p, i + 4))) == FloatValue(y)
    ensures Swap(FloatValue(ReadSingle(p, i + 8))) == FloatValue(z)
    ensures i + 12 == |p.bytes|
  {
    hide EmitValue, ReadSingle;
    FloatField(p, i, x, EmitValue(FloatValue(y)) + EmitValue(FloatValue(z)));
    FloatField(p, i + 4, y, EmitValue(FloatValue(z)));
    assert EmitValue(FloatValue(z)) == EmitValue(FloatValue(z)) + [];
    FloatField(p, i + 8, z, []);
    assert p.bytes[i + 12..] == [];
  }

  /** Where a game client finds the float at index i of a message, as the host holds it. */
  function HostFloat(m: Bytes, i: nat): Value
  {
    Swap(FloatValue(ReadSingle(Whole(m), i)))
  }

  /** A SpawnCharacter message (type 3) carries the name, the second name and the character, each up to its
      first NUL, if and only if none is longer than 127 then; and after these the position, at its end. */
  lemma {:induction false} SpawnReadsBack(c: Session, second: Bytes)
    ensures var m, ss := SpawnMessage(c, second), [c.username, second, c.character];
            && Whole(m).At(0) == 3
            && (ReadStrings(Whole(m), 1, 3) == Shown(ss) <==> Short(ss))
            && var i := AfterStrings(Whole(m), 1, 3);
               Short(ss) ==>
                 HostFloat(m, i) == c.vars[19] && HostFloat(m, i + 4) == c.vars[20] &&
                 HostFloat(m, i + 8) == c.vars[21] && i + 12 == |m|
  {
    hide SpawnMessage, Strings, ReadStrings, AfterStrings, Shown, Short, HostFloat, CStr, StrLen;
    SpawnParts(c, second);
    PositionReadsBack(SpawnMessage(c, second), [c.username, second, c.character],
                      c.vars[19].f, c.vars[20].f, c.vars[21].f);
  }

  /** A message of a type byte, some strings and a position. */
  lemma PositionReadsBack(m: Bytes, ss: seq<Bytes>, x: Single, y: Single, z: Single)
    requires m != [] && m[1..] == Strings(ss) +
                 (EmitValue(FloatValue(x)) + (EmitValue(FloatValue(y)) + EmitValue(FloatValue(z))))
    ensures ReadStrings(Whole(m), 1, |ss|) == Shown(ss) <==> Short(ss)
    ensures var i := AfterStrings(Whole(m), 1, |ss|);
            Short(ss) ==>
              HostFloat(m, i) == FloatValue(x) && HostFloat(m, i + 4) == FloatValue(y) &&
              HostFloat(m, i + 8) == FloatValue(z) && i + 12 == |m|
  {
    hide EmitValue, Strings, ReadStrings, AfterStrings, Shown, Short, ReadSingle, Swap;
    var rest := EmitValue(FloatValue(x)) + (EmitValue(FloatValue(y)) + EmitValue(FloatValue(z)));
    StringsReadBack(Whole(m), 1, ss, rest);
    if Short(ss) {
      HostPosition(Whole(m), AfterStrings(Whole(m), 1, |ss|), x, y, z);
    }
  }

  lemma SpawnParts(c: Session, second: Bytes)
    ensures var m := SpawnMessage(c, second);
            && |m| > 0 && m[0] == 3
            && m[1..] == Strings([c.username, second, c.character]) +
                 (EmitValue(c.vars[POSITION_X]) + (EmitValue(c.vars[POSITION_Y]) + EmitValue(c.vars[POSITION_Z])))
  {
    hide EncodeString, EmitValue;
    ThreeStrings(c.username, second, c.character);
  }

  lemma ThreeStrings(a: Bytes, b: Bytes, c: Bytes)
    ensures Strings([a, b, c]) == EncodeString(a) + (EncodeString(b) + EncodeString(c))
  {
    hide EncodeString, Strings;
    StringsCons(c, []);
    StringsCons(b, [c]);
    StringsCons(a, [b, c]);
    assert [c] + [] == [c] && [b] + [c] == [b, c] && [a] + [b, c] == [a, b, c];
  }

  /** What the others are told of a newcomer is what it applied with: its name twice, its character and its
      position, in this order. */
  lemma NewcomerReadsBack(cfg: Config, a: Application, g: Garbage)
    requires Sendable(a.username) && Sendable(a.character)
    ensures var c := Admitted(cfg, a, g);
            var m := SpawnMessage(c, c.team);
            var i := AfterStrings(Whole(m), 1, 3);
            && Whole(m).At(0) == 3
            && ReadStrings(Whole(m), 1, 3) == [a.username, a.username, a.character]
            && HostFloat(m, i) == FloatValue(a.posx) && HostFloat(m, i + 4) == FloatValue(a.posy)
            && HostFloat(m, i + 8) == FloatValue(a.posz) && i + 12 == |m|
  {
    hide ReadStrings, AfterStrings, SpawnMessage, Sendable, StrLen, CStr, HostFloat, Admitted;
    SendableReads(a.username);
    SendableReads(a.character);
    var c := Admitted(cfg, a, g);
    AdmittedFields(cfg, a, g);
    SpawnReadsBack(c, c.team);
    assert Shown([a.username, a.username, a.character]) == [a.username, a.username, a.character];
  }

  lemma AdmittedFields(cfg: Config, a: Application, g: Garbage)
    ensures var c := Admitted(cfg, a, g);
            && c.username == a.username && c.team == a.username && c.character == a.character
            && c.vars[19] == FloatValue(a.posx) && c.vars[20] == FloatValue(a.posy) && c.vars[21] == FloatValue(a.posz)
  {
    hide LevelName, DefaultValue;
  }

  /** A chat line (type 1) shows its sender's registered name, never the one the packet claims, and then the
      text, each up to its first NUL, if and only if neither is longer than 127 then; the byte that ends it says
      that it is no notification. */
  lemma {:induction false} ChatReadsBack(username: Bytes, content: Bytes)
    ensures var m := ChatMessage(username, content);
            && Whole(m).At(0) == 1
            && (ReadStrings(Whole(m), 1, 2) == [CStr(username), CStr(content)] <==> Short([username, content]))
            && (Short([username, content]) ==> AfterStrings(Whole(m), 1, 2) + 1 == |m|)
            && Whole(m).At(|m| - 1) == 0
  {
    var m, ss := ChatMessage(username, content), [username, content];
    ChatParts(username, content);
    assert Shown(ss) == [CStr(username), CStr(content)];
    hide ChatMessage, Strings, ReadStrings, AfterStrings, Shown, Short, CStr, StrLen;
    StringsReadBack(Whole(m), 1, ss, [0]);
  }

  lemma ChatParts(username: Bytes, content: Bytes)
    ensures var m := ChatMessage(username, content);
            |m| > 1 && m[0] == 1 && m[1..] == Strings([username, content]) + [0] && m[|m| - 1] == 0
  {
    hide EncodeString;
    TwoStrings(username, content);
  }

  lemma TwoStrings(a: Bytes, b: Bytes)
    ensures Strings([a, b]) == EncodeString(a) + EncodeString(b)
  {
    hide EncodeString, Strings;
    StringsCons(b, []);
    StringsCons(a, [b]);
    assert [b] + [] == [b] && [a] + [b] == [a, b];
  }

  /** A chat line reaches everybody on its sender's level, the sender among them, and nobody else: as one message,
      under the name the sender signed on with, with the second string of the packet. */
  lemma {:induction false} ChatTold(st: State, me: Bytes, p: Packet)
    requires me in st.clients
    ensures var c, after, said := st.clients[me], Chat(st, me, p), ReadStrings(p, 1, 2)[1];
            var m := ChatMessage(c.username, said);
            && Whole(m).At(0) == 1 && Whole(m).At(|m| - 1) == 0
            && (ReadStrings(Whole(m), 1, 2) == [CStr(c.username), CStr(said)] <==> Short([c.username, said]))
            && after.order == st.order && after.clients.Keys == st.clients.Keys
            && forall n :: n in st.clients ==>
                 after.clients[n] ==
                 if st.clients[n].levelPath == c.levelPath then
                    st.clients[n].(inbox := st.clients[n].inbox + [m])
                 else st.clients[n]
  {
    var said := ReadStrings(p, 1, 2)[1];
    assert said == ReadString(p, AfterString(p, 1)) by {
      assert ReadStrings(p, 1, 2) == [ReadString(p, 1)] + ReadStrings(p, AfterString(p, 1), 1);
    }
    ChatReadsBack(st.clients[me].username, said);
    hide ChatMessage, ReadString, AfterString, ReadStrings, Short, CStr;
  }

  /** The message about a peer tokenises, under the grammar of the decode loop, into exactly the missing
      variables: each once, in order of first occurrence, with the current values, floats reversed,
      bare tags bare; and the tokens end with the message. */
  lemma PeerMessageTokens(c: Session, key: int)
    requires StrLen(c.username) <= 127
    ensures var types := Missing(c.history, key);
            var p := Whole(UpdateMessage(c, types));
            var i := 2 + |CStr(c.username)|;
            && p.At(0) == 9 && ReadString(p, 1) == CStr(c.username)
            && Records(PeerGrammar, p, i) == SwapAll(RecordsFor(PeerGrammar, c.vars, types))
            && Tags(Records(PeerGrammar, p, i)) == types
            && (forall j, k :: 0 <= j < k < |types| ==> types[j] != types[k])
            && ExitIndex(PeerGrammar, p, i) == |p.bytes|
  {
    hide Encode, Records, EncodeString, InGrammar, StrLen, CStr, ReadString, TypesOfNewest, Dedup, RecordOf, FindKey;
    var types := Missing(c.history, key);
    DedupElements(TypesOfNewest(c.history, FindKey(c.history, key)));
    var rs := RecordsFor(PeerGrammar, c.vars, types);
    var m := UpdateMessage(c, types);
    HeadRead(m, UPDATE_CHARACTER, c.username, Encode(rs));
    RecordsForInGrammar(PeerGrammar, c.vars, types);
    RecordsOfEncode(PeerGrammar, Whole(m), 2 + |CStr(c.username)|, rs);
    assert Tags(SwapAll(rs)) == types;
  }

  // ---------------------------------------------------------------- texts

  /** The bytes are these characters. */
  predicate Spells(b: Bytes, text: string)
  {
    |b| == |text| && forall i :: 0 <= i < |text| ==> b[i] as int == text[i] as int
  }

  /** The bytes are a name and then these characters. */
  predicate Says(b: Bytes, name: Bytes, text: string)
  {
    |b| == |name| + |text| && b[..|name|] == name && Spells(b[|name|..], text)
  }

  /** A line of the server as a game client reads it: type 1, the speaker "server", the line, and the byte
      that marks it as a notification, at its end. */
  predicate Announces(m: Bytes, name: Bytes, text: string)
  {
    var p := Whole(m);
    && p.At(0) == 1
    && Spells(ReadString(p, 1), "server")
    && Says(ReadString(p, 8), name, text)
    && |m| == 10 + |name| + |text| && p.At(|m| - 1) == 1
  }

  predicate Ascii(text: string)
  {
    forall i :: 0 <= i < |text| ==> 0 < text[i] as int < 128
  }

  lemma TextSpells(text: string)
    requires Ascii(text)
    ensures Spells(Text(text), text)
  {
  }

  /** A server's line about a player reads as the player's name and the text if and only if the name has
      no NUL and the line has at most 127 characters. */
  lemma {:induction false} NoticeReadsBack(name: Bytes, text: string)
    requires Ascii(text) && text != ""
    ensures Announces(NoticeMessage(name + Text(text)), name, text) <==> 0 !in name && |name| + |text| <= 127
  {
    hide EncodeString, StrLen, CStr, ReadString, Text, LengthRead;
    var content := name + Text(text);
    var m := NoticeMessage(content);
    NoticeParts(content);
    TextSpells(text);
    ReadStringOfEncodeString(Whole(m), 8, content);
    NoNul(name, text);
    assert content[..|name|] == name && content[|name|..] == Text(text);
    if Announces(m, name, text) {
      SaysOnce(ReadString(Whole(m), 8), content, name, text);
    }
  }

  lemma SaysOnce(a: Bytes, b: Bytes, name: Bytes, text: string)
    requires Says(a, name, text) && Says(b, name, text)
    ensures a == b
  {
    forall i | 0 <= i < |a|
      ensures a[i] == b[i]
    {
      if i < |name| {
        assert a[i] == a[..|name|][i] && b[i] == b[..|name|][i];
      } else {
        assert a[i] == a[|name|..][i - |name|] && b[i] == b[|name|..][i - |name|];
      }
    }
  }

  /** The string is shown whole if and only if the name has no NUL. */
  lemma NoNul(name: Bytes, text: string)
    requires Ascii(text) && text != ""
    ensures var content := name + Text(text);
            && |content| == |name| + |text|
            && (StrLen(content) == |content| <==> 0 !in name)
            && (CStr(content) == content <==> 0 !in name)
  {
    var content := name + Text(text);
    hide StrLen;
    TextSpells(text);
    if 0 !in name {
      assert forall i :: 0 <= i < |content| ==> content[i] != 0;
      StrLenUnique(content, |content|);
      assert content[..|content|] == content;
    } else {
      var i :| 0 <= i < |name| && name[i] == 0;
      StopsAt(content, i);
    }
  }

  lemma {:induction false} StopsAt(s: Bytes, i: nat)
    requires i < |s| && s[i] == 0
    ensures StrLen(s) <= i
  {
    if i > 0 {
      StopsAt(s[1..], i - 1);
    }
  }

  lemma ServerName()
    ensures var s := Text("server"); Spells(s, "server") && StrLen(s) == 6 && CStr(s) == s && |EncodeString(s)| == 7
  {
    var s := Text("server");
    assert s == [115, 101, 114, 118, 101, 114];
    StrLenUnique(s, 6);
    hide StrLen;
  }

  lemma NoticeParts(content: Bytes)
    ensures var m, e := NoticeMessage(content), EncodeString(content);
            && |m| == 9 + |e| && m[0] == 1 && m[|m| - 1] == 1
            && m[8..8 + |e|] == e && |e| == 1 + StrLen(content)
            && Spells(ReadString(Whole(m), 1), "server")
  {
    var e, s := EncodeString(content), Text("server");
    ServerName();
    var m := NoticeMessage(content);
    hide EncodeString, StrLen, Text, ReadString, CStr, ToChar;
    assert m == [1] + EncodeString(s) + (e + [1]);
    HeadRead(m, 1, s, e + [1]);
    assert m[8..] == e + [1];
    assert m[8..8 + |e|] == m[8..][..|e|] == e;
  }
}
