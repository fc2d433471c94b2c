/** What a player's level is told when the player's connection closes. */
module Farewells {
  import opened Wire
  import opened Clients
  import opened Server
  import opened Registry
  import opened Messages

  /** A RemoveCharacter message (type 4) as a game client reads it: the name, up to its first NUL, if that has at
      most 127 characters, and nothing behind it. */
  predicate Removes(m: Bytes, name: Bytes)
  {
    Whole(m).At(0) == 4 && |m| == 2 + StrLen(name) && (ReadString(Whole(m), 1) == CStr(name) <==> StrLen(name) <= 127)
  }

  /** Nothing has changed but two more messages at the end of the inbox: a notification that somebody of this name
      has left, which reads so if and only if the name has no NUL and at most 108 characters, and the order to
      remove the character of this name. */
  ghost predicate Bereft(before: Session, after: Session, name: Bytes)
  {
    var n := |before.inbox|;
    && |after.inbox| == n + 2
    && after == before.(inbox := before.inbox + [after.inbox[n], after.inbox[n + 1]])
    && (Announces(after.inbox[n], name, " has left the room.") <==> 0 !in name && |name| <= 108)
    && Removes(after.inbox[n + 1], name)
  }

  lemma {:induction false} RemoveReadsBack(c: Session)
    ensures Removes(RemoveMessage(c), c.username)
  {
    var m, e := RemoveMessage(c), EncodeString(c.username);
    assert m == [4] + e;
    hide EncodeString, StrLen, ReadString, CStr;
    assert m[1..1 + |e|] == e;
    ReadStringOfEncodeString(Whole(m), 1, c.username);
  }

  lemma {:induction false} PartedReadsBack(c: Session, leaver: Session)
    ensures Bereft(c, Parted(c, leaver, true), leaver.username) && Parted(c, leaver, false) == c
  {
    NoticeReadsBack(leaver.username, " has left the room.");
    RemoveReadsBack(leaver);
    hide Announces, Removes, NoticeMessage, RemoveMessage, Text;
    var after := Parted(c, leaver, true);
    assert after.inbox == c.inbox + [LeftNotice(leaver), RemoveMessage(leaver)];
  }

  /** The next update of a player left behind, whatever it holds, is answered first of all with the order to
      remove the character, and then with the notification. */
  lemma {:induction false} FarewellDelivered(before: Session, after: Session, name: Bytes, st: State, p: Packet,
                                             now: int)
    requires OrderCovered(st) && Bereft(before, after, name)
    ensures var out := UpdateOutside(st, after, p, now).out;
            && |out| >= 2 + |before.inbox|
            && Removes(out[0], name)
            && (Announces(out[1], name, " has left the room.") <==> 0 !in name && |name| <= 108)
  {
    hide Announces, Removes, Decoded, Aftermath, Sync, PeersOf;
    DecodedIdentity(after, p);
    var drained := Reverse(after.inbox);
    var out := UpdateOutside(st, after, p, now).out;
    assert out[0] == drained[0] && out[1] == drained[1];
  }
}
