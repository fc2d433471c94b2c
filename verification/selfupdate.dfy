/** The UpdateSelf message that tells a revived player its own new state. */
module SelfUpdate {
  import opened Wire
  import opened History
  import opened Clients
  import opened Server
  import opened Registry
  import opened Replication
  import Health

  ghost predicate NoRepeats(ts: seq<Byte>)
  {
    forall i, j :: 0 <= i < j < |ts| ==> ts[i] != ts[j]
  }

  lemma {:induction false} SelectElements(ts: seq<Byte>, chosen: set<Byte>)
    ensures forall t :: t in Select(ts, chosen) <==> t in ts && t in chosen
    ensures NoRepeats(ts) ==> NoRepeats(Select(ts, chosen))
  {
    if ts != [] {
      var front, last := ts[..|ts| - 1], ts[|ts| - 1];
      SelectElements(front, chosen);
      assert ts == front + [last];
      if NoRepeats(ts) {
        assert last !in front;
      }
    }
  }

  predicate Velocity(t: Byte)
  {
    t == VELOCITY_X || t == VELOCITY_Y || t == VELOCITY_Z
  }

  lemma SelfOrderCovers(t: Byte)
    ensures t in SELF_ORDER <==> 0 <= t < 28 && !Velocity(t)
  {
  }

  /** Where SELF_ORDER holds a variable. */
  function Slot(t: Byte): int
  {
    if t <= 5 then t + 11 else if t <= 13 then t - 6 else if t == 14 then 22 else if t == 15 then 8
    else if t <= 17 then t + 7 else if t == 18 then 10 else if t <= 23 then t - 2 else 9
  }

  /** The variables stand in the order in which the tests come. */
  ghost predicate InTestOrder(ts: seq<Byte>)
  {
    forall i, j :: 0 <= i < j < |ts| ==> Slot(ts[i]) < Slot(ts[j])
  }

  lemma SelfOrderOnce()
    ensures NoRepeats(SELF_ORDER) && InTestOrder(SELF_ORDER)
  {
    assert forall i :: 0 <= i < |SELF_ORDER| ==> Slot(SELF_ORDER[i]) == i;
  }

  lemma {:induction false} SelectKeepsOrder(ts: seq<Byte>, chosen: set<Byte>)
    requires InTestOrder(ts)
    ensures InTestOrder(Select(ts, chosen))
  {
    hide Slot;
    if ts != [] {
      var front, last := ts[..|ts| - 1], ts[|ts| - 1];
      SelectKeepsOrder(front, chosen);
      SelectElements(front, chosen);
      var s := Select(front, chosen);
      forall i | 0 <= i < |s|
        ensures Slot(s[i]) < Slot(last)
      {
        assert s[i] in front;
        var k :| 0 <= k < |front| && front[k] == s[i];
        assert ts[k] == s[i];
      }
    }
  }

  lemma AssignedInRange(rs: seq<Record>)
    ensures forall t :: t in Assigned(rs) ==> 0 <= t < 28
  {
  }

  /** The message reads back as the records that were selected. */
  lemma SelfMessageReads(c: Session)
    ensures var m := SelfMessage(c);
            && m[0] == UPDATE_SELF
            && SwapAll(Records(SelfGrammar, Whole(m), 1)) ==
                 RecordsFor(SelfGrammar, c.vars, Select(SELF_ORDER, c.changed))
  {
    hide Encode, Select, RecordsFor, Records, SwapAll, InGrammar;
    var m := SelfMessage(c);
    var rs := RecordsFor(SelfGrammar, c.vars, Select(SELF_ORDER, c.changed));
    RecordsForInGrammar(SelfGrammar, c.vars, Select(SELF_ORDER, c.changed));
    assert m[1..] == Encode(rs);
    RecordsOfEncode(SelfGrammar, Whole(m), 1, rs);
    SwapAllTwice(rs);
  }

  lemma RecordsForElements(vars: Vars, ts: seq<Byte>)
    requires forall t :: t in ts ==> 0 <= t < 28
    ensures Tags(RecordsFor(SelfGrammar, vars, ts)) == ts
    ensures forall r :: r in RecordsFor(SelfGrammar, vars, ts) ==> 0 <= r.tag < 28 && r.value == Some(vars[r.tag])
  {
    var rs := RecordsFor(SelfGrammar, vars, ts);
    forall i | 0 <= i < |rs|
      ensures 0 <= rs[i].tag < 28 && rs[i].value == Some(vars[rs[i].tag])
    {
      assert ts[i] in ts;
    }
  }

  /** The selected records: every raised flag but the velocities' once, in the order of the tests, with the
      current value. */
  ghost predicate Reports(rs: seq<Record>, vars: Vars, changed: set<Byte>)
  {
    && NoRepeats(Tags(rs)) && InTestOrder(Tags(rs))
    && (forall t :: t in Tags(rs) <==> t in changed && !Velocity(t))
    && (forall r :: r in rs ==> (0 <= r.tag < 28 && r.value == Some(vars[r.tag])))
  }

  lemma SelectionReports(vars: Vars, changed: set<Byte>)
    requires forall t :: t in changed ==> 0 <= t < 28
    ensures Reports(RecordsFor(SelfGrammar, vars, Select(SELF_ORDER, changed)), vars, changed)
  {
    hide Select, RecordsFor, NoRepeats, SELF_ORDER, Velocity, InTestOrder;
    var ts := Select(SELF_ORDER, changed);
    SelfOrderOnce();
    SelectElements(SELF_ORDER, changed);
    SelectKeepsOrder(SELF_ORDER, changed);
    forall t: Byte
      ensures t in SELF_ORDER <==> 0 <= t < 28 && !Velocity(t)
    {
      SelfOrderCovers(t);
    }
    RecordsForElements(vars, ts);
  }

  /** What the game client reads from a message of this kind. */
  function ReadSelf(m: Bytes): seq<Record>
  {
    SwapAll(Records(SelfGrammar, Whole(m), 1))
  }

  lemma SelfMessageReports(c: Session)
    requires forall t :: t in c.changed ==> 0 <= t < 28
    ensures Reports(ReadSelf(SelfMessage(c)), c.vars, c.changed)
  {
    hide Records, Select, SelfMessage, RecordsFor, Reports;
    SelfMessageReads(c);
    SelectionReports(c.vars, c.changed);
  }

  /** With remove_blood raised. */
  function Raised(vars: Vars): Vars
  {
    vars[24 := BoolValue(true)]
  }

  /** A revive sends the player (type 6) exactly the variables its packet or the revive itself assigned, except
      the velocities, each once, in the order of the tests and with the value it then has; but remove_blood,
      which is lowered again, is sent as true. */
  lemma {:induction false} UpdateSelfComplete(c: Session, p: Packet, now: int)
    requires FateAt(c, p, now) == Fate.Revived
    ensures var out := Refreshed(c, p, now).1;
            var packet := Records(PeerGrammar, p, 1);
            && |out| == |c.inbox| + 1
            && var m := out[|c.inbox|];
            && m != [] && m[0] == 6
            && Reports(ReadSelf(m), Raised(Refreshed(c, p, now).0.vars),
                       Assigned(packet) + {6, 7, 8, 9, 10, 11, 12, 13, 14, 18, 24})
            && RawRecord(24, Some(BoolValue(true))) in ReadSelf(m)
  {
    hide Records, StoreAll, Refreshed, FateAt, Assigned, Decoded, ReadSelf, Reports;
    var packet := Records(PeerGrammar, p, 1);
    var healed := StoredAll(Decoded(c, p).(inbox := []), REVIVE);
    RevivedReplies(c, p, now);
    AssignedInRange(packet);
    AssignedInRange(REVIVE);
    SelfMessageReports(healed);
    RemoveBloodHealed(StoreAll(c.vars, packet));
    HealedVars(c, p, now);
    RevivedTags();
    ReportedAs(ReadSelf(SelfMessage(healed)), healed.vars, healed.changed, REMOVE_BLOOD);
  }

  /** What the message shows is the player's state, with remove_blood still raised. */
  lemma HealedVars(c: Session, p: Packet, now: int)
    requires FateAt(c, p, now) == Fate.Revived
    ensures Raised(Refreshed(c, p, now).0.vars) ==
            StoreAll(StoreAll(c.vars, Records(PeerGrammar, p, 1)), REVIVE)
  {
    hide FateAt, Refreshed, StoreAll, Records;
    Health.RefreshedVars(c, p, now);
    RemoveBloodHealed(StoreAll(c.vars, Records(PeerGrammar, p, 1)));
  }

  lemma RevivedTags()
    ensures Assigned(REVIVE) == {6, 7, 8, 9, 10, 11, 12, 13, 14, 18, 24}
  {
    AssignedWithin();
    hide REVIVE;
    AssignedAt(0);
    AssignedAt(1);
    AssignedAt(2);
    AssignedAt(3);
    AssignedAt(4);
    AssignedAt(5);
    AssignedAt(6);
    AssignedAt(7);
    AssignedAt(8);
    AssignedAt(9);
    AssignedAt(10);
  }

  lemma AssignedWithin()
    ensures Assigned(REVIVE) <= {6, 7, 8, 9, 10, 11, 12, 13, 14, 18, 24}
  {
    AssignedAreTags(REVIVE);
  }

  lemma AssignedAt(i: nat)
    requires i < 11
    ensures [7, 10, 6, 8, 9, 14, 11, 12, 13, 24, 18][i] in Assigned(REVIVE)
  {
    assert REVIVE[i] in REVIVE && REVIVE[i].value.Some?;
  }

  lemma ReportedAs(rs: seq<Record>, vars: Vars, changed: set<Byte>, t: Byte)
    requires Reports(rs, vars, changed) && t in changed && 0 <= t < 28 && !Velocity(t)
    ensures RawRecord(t, Some(vars[t])) in rs
  {
    hide NoRepeats, InTestOrder;
    assert t in Tags(rs);
    var i :| 0 <= i < |rs| && Tags(rs)[i] == t;
    assert rs[i] in rs && rs[i].tag == t;
  }

  lemma RemoveBloodHealed(vars: Vars)
    ensures REMOVE_BLOOD in Assigned(REVIVE)
    ensures StoreAll(vars, REVIVE)[REMOVE_BLOOD] == BoolValue(true)
  {
    var r := RawRecord(REMOVE_BLOOD, Some(BoolValue(true)));
    assert r == REVIVE[9] && r in REVIVE;
    HealedStored(vars, REMOVE_BLOOD, BoolValue(true));
  }

  lemma RevivedReplies(c: Session, p: Packet, now: int)
    requires FateAt(c, p, now) == Fate.Revived
    ensures var healed := StoredAll(Decoded(c, p).(inbox := []), REVIVE);
            && Refreshed(c, p, now).1 == Reverse(c.inbox) + [SelfMessage(healed)]
            && healed.vars == StoreAll(StoreAll(c.vars, Records(PeerGrammar, p, 1)), REVIVE)
            && healed.changed == Assigned(Records(PeerGrammar, p, 1)) + Assigned(REVIVE)
  {
    var decoded := Decoded(c, p);
    DecodedIdentity(c, p);
    FateIgnoresInbox(decoded, now);
    DecodedFields(c, p);
    hide Decoded, StoreAll, SelfMessage, Reverse, Records, FateOf, Assigned;
  }

  lemma DecodedFields(c: Session, p: Packet)
    ensures Decoded(c, p).vars == StoreAll(c.vars, Records(PeerGrammar, p, 1))
    ensures Decoded(c, p).changed == Assigned(Records(PeerGrammar, p, 1))
  {
    hide StoreAll, Records, Pushed;
  }
}
