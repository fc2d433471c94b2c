/** The verdict of the health test and what each verdict does, in the numbers of the protocol. */
module Health {
  import opened Wire
  import opened Singles
  import opened History
  import opened Clients
  import opened Server
  import opened Registry
  import opened Replication
  import opened Messages

  /** A float above zero, or one that compares with nothing. */
  predicate AboveZero(v: Value)
  {
    v.FloatValue? && (IsNaN(v.f) || Worth(v.f) > 0.0)
  }

  /** Permanent, blood and temporary health (10, 7, 9) are above zero and knocked_out (14) is 0. */
  predicate Standing(vars: Vars)
  {
    AboveZero(vars[10]) && AboveZero(vars[7]) && AboveZero(vars[9]) && vars[14] == IntValue(0)
  }

  /** The player's variables after the records of a packet. */
  function AfterPacket(c: Session, p: Packet): Vars
  {
    StoreAll(c.vars, Records(PeerGrammar, p, 1))
  }

  lemma AboveZeroIff(v: Value)
    requires v.FloatValue?
    ensures AboveZero(v) <==> !NonPositive(v)
  {
    hide NonPositive, Worth, IsNaN;
    NonPositiveIff(v.f);
  }

  lemma StandingIff(vars: Vars)
    ensures Standing(vars) <==> !Dead(vars)
  {
    hide NonPositive, AboveZero;
    AboveZeroIff(vars[10]);
    AboveZeroIff(vars[7]);
    AboveZeroIff(vars[9]);
  }

  /** The verdict on an update: alive if and only if, after its records, the three healths are above zero
      (or NaNs) and the player is awake; otherwise the death is announced if the flag is down, and with the
      flag up the player is revived if and only if more than five seconds have passed since then. */
  lemma {:induction false} VerdictIff(c: Session, p: Packet, now: int)
    ensures FateAt(c, p, now) == Alive <==> Standing(AfterPacket(c, p))
    ensures FateAt(c, p, now) == Announced <==> !Standing(AfterPacket(c, p)) && !c.deathChanged
    ensures FateAt(c, p, now) == Fate.Revived <==>
            !Standing(AfterPacket(c, p)) && c.deathChanged && now - c.timeOfDeath > 5
    ensures FateAt(c, p, now) == Waiting <==>
            !Standing(AfterPacket(c, p)) && c.deathChanged && now - c.timeOfDeath <= 5
  {
    hide Dead, Decoded, Records, StoreAll, Standing;
    DecodedAs(c, p);
    DecodedIdentity(c, p);
    StandingIff(AfterPacket(c, p));
  }

  lemma DecodedAs(c: Session, p: Packet)
    ensures Decoded(c, p).vars == AfterPacket(c, p)
  {
    hide Records, StoreAll;
  }

  // ---------------------------------------------------------------- what a verdict does to the player

  /** A revive leaves 0.0f (bytes 0, 0, 0, 0) in blood damage and the two recovery times, 1.0f in the four
      healths and 10.0f in the blood amount, the player awake, its throat uncut and remove_blood lowered
      again. Every other variable stays as the packet left it, and so does every variable at any other verdict. */
  lemma {:induction false} RevivedValues(c: Session, p: Packet, now: int)
    ensures var vars := Refreshed(c, p, now).0.vars;
            if FateAt(c, p, now) != Fate.Revived then vars == AfterPacket(c, p)
            else
              && (forall t :: t in {6, 12, 13} ==> vars[t] == FloatValue(Single(0, 0, 0, 0)))
              && (forall t :: t in {7, 8, 9, 10} ==> vars[t] == FloatValue(Single(0, 0, -128, 63)))
              && vars[11] == FloatValue(Single(0, 0, 32, 65))
              && vars[14] == IntValue(0)
              && (forall t :: t in {18, 24} ==> vars[t] == BoolValue(false))
              && forall t: Byte :: 0 <= t < 28 && t !in {6, 7, 8, 9, 10, 11, 12, 13, 14, 18, 24} ==>
                   vars[t] == AfterPacket(c, p)[t]
  {
    RefreshedVars(c, p, now);
    var before := AfterPacket(c, p);
    hide FateAt, Refreshed, AfterPacket;
    if FateAt(c, p, now) == Fate.Revived {
      ReviveValues(before);
      ReviveLeaves(before);
    }
  }

  lemma RefreshedVars(c: Session, p: Packet, now: int)
    ensures Refreshed(c, p, now).0.vars ==
            if FateAt(c, p, now) == Fate.Revived then StoreAll(AfterPacket(c, p), REVIVE)[24 := BoolValue(false)]
            else AfterPacket(c, p)
  {
    hide Dead, StoreAll, Records, SelfMessage, DiedNotice, REVIVE;
    DecodedAs(c, p);
    FateIgnoresInbox(Decoded(c, p), now);
  }

  lemma ReviveValues(vars: Vars)
    ensures var after := StoreAll(vars, REVIVE);
            && after[6] == after[12] == after[13] == FloatValue(Single(0, 0, 0, 0))
            && after[7] == after[8] == after[9] == after[10] == FloatValue(Single(0, 0, -128, 63))
            && after[11] == FloatValue(Single(0, 0, 32, 65))
            && after[14] == IntValue(0) && after[18] == BoolValue(false)
  {
    hide StoreAll;
    RevivesTo(vars, 0);
    RevivesTo(vars, 1);
    RevivesTo(vars, 2);
    RevivesTo(vars, 3);
    RevivesTo(vars, 4);
    RevivesTo(vars, 5);
    RevivesTo(vars, 6);
    RevivesTo(vars, 7);
    RevivesTo(vars, 8);
    RevivesTo(vars, 10);
  }

  lemma RevivesTo(vars: Vars, i: nat)
    requires i < |REVIVE|
    ensures REVIVE[i].value.Some? && StoreAll(vars, REVIVE)[REVIVE[i].tag] == REVIVE[i].value.value
  {
    hide StoreAll;
    var r := REVIVE[i];
    assert r in REVIVE;
    HealedStored(vars, r.tag, r.value.value);
  }

  lemma ReviveLeaves(vars: Vars)
    ensures forall t: Byte :: 0 <= t < 28 && t !in {6, 7, 8, 9, 10, 11, 12, 13, 14, 18, 24} ==>
              StoreAll(vars, REVIVE)[t] == vars[t]
  {
    hide StoreAll;
    forall t: Byte | 0 <= t < 28 && t !in {6, 7, 8, 9, 10, 11, 12, 13, 14, 18, 24}
      ensures StoreAll(vars, REVIVE)[t] == vars[t]
    {
      StoreAllUntouched(vars, REVIVE, t);
    }
  }

  /** The flag is up exactly if the player is not found standing. An announcement stamps the clock and is the
      one message in the player's own inbox, which is empty otherwise. */
  lemma {:induction false} VerdictKept(c: Session, p: Packet, now: int)
    ensures var after, announced := Refreshed(c, p, now).0, !Standing(AfterPacket(c, p)) && !c.deathChanged;
            && after.deathChanged == !Standing(AfterPacket(c, p))
            && after.timeOfDeath == (if announced then now else c.timeOfDeath)
            && after.inbox == if announced then [DiedNotice(c)] else []
  {
    VerdictIff(c, p, now);
    RefreshedFlags(c, p, now);
    hide FateAt, Refreshed, AfterPacket, Standing, DiedNotice;
  }

  lemma RefreshedFlags(c: Session, p: Packet, now: int)
    ensures var after, fate := Refreshed(c, p, now).0, FateAt(c, p, now);
            && after.deathChanged == (fate != Alive && (fate == Announced || c.deathChanged))
            && after.timeOfDeath == (if fate == Announced then now else c.timeOfDeath)
            && after.inbox == if fate == Announced then [DiedNotice(c)] else []
  {
    var decoded := Decoded(c, p);
    DecodedIdentity(c, p);
    FateIgnoresInbox(decoded, now);
    hide Dead, StoreAll, Records, SelfMessage, NoticeMessage, REVIVE, Decoded, Assigned;
  }

  /** The announcement of a death, to everybody else on the player's level and to nobody else. It reads as the
      player's name and " has died." if and only if the name has no NUL and at most 117 characters. */
  lemma {:induction false} DeathTold(clients: map<Bytes, Session>, me: Bytes, p: Packet, now: int)
    requires me in clients
    ensures var c, after := clients[me], Settled(clients, me, p, now);
            var m := DiedNotice(c);
            && (Announces(m, c.username, " has died.") <==> 0 !in c.username && |c.username| <= 117)
            && after.Keys == clients.Keys
            && forall n :: n in clients && n != me ==>
                 if clients[n].levelPath == c.levelPath && !Standing(AfterPacket(c, p)) && !c.deathChanged then
                   after[n] == clients[n].(inbox := clients[n].inbox + [m])
                 else after[n] == clients[n]
  {
    VerdictIff(clients[me], p, now);
    NoticeReadsBack(clients[me].username, " has died.");
    SettledMail(clients, me, p, now);
    hide FateAt, Settled, AfterPacket, Standing, NoticeMessage, Announces;
  }

  lemma SettledMail(clients: map<Bytes, Session>, me: Bytes, p: Packet, now: int)
    requires me in clients
    ensures var after := Settled(clients, me, p, now);
            && after.Keys == clients.Keys
            && forall n :: n in clients && n != me ==>
                 if clients[n].levelPath == clients[me].levelPath && FateAt(clients[me], p, now) == Announced then
                   after[n] == clients[n].(inbox := clients[n].inbox + [DiedNotice(clients[me])])
                 else after[n] == clients[n]
  {
    hide FateAt, Refreshed, DiedNotice;
    RefreshedIdentity(clients[me], p, now);
  }
}
