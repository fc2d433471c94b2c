/** Runs from an empty server: players that sign on to one level, and the packets they send. */
module Gathering {
  import opened Wire
  import opened History
  import opened Clients
  import opened Server
  import opened Registry
  import opened Replication
  import opened Schedules
  import opened Messages
  import opened Death

  // ---------------------------------------------------------------- who is admitted

  /** A string field as a client may send it, with any bytes. */
  function RawString(s: Bytes): Bytes
    requires |s| <= 127
  {
    [|s|] + s
  }

  lemma RawField(p: Packet, i: nat, s: Bytes, rest: Bytes)
    requires |s| <= 127 && i <= |p.bytes| && p.bytes[i..] == RawString(s) + rest
    ensures ReadString(p, i) == s
    ensures AfterString(p, i) <= |p.bytes| && p.bytes[AfterString(p, i)..] == rest
  {
    var tail := p.bytes[i..];
    assert tail[0] == p.bytes[i];
    assert forall k :: 0 <= k < |s| ==> p.At(i + 1 + k) == tail[1 + k] == s[k];
    assert |ReadString(p, i)| == |s|;
    assert p.bytes[i + 1 + |s|..] == tail[1 + |s|..];
  }

  /** The sign-on packet of a player at the origin, without a character or a version. */
  function Arrival(name: Bytes, level: Bytes): Packet
    requires |name| <= 127 && |level| <= 127
  {
    Whole([SIGN_ON] + (RawString(name) + (RawString([]) + (RawString(level) + (RawString(level) + (RawString([]) +
          (EmitValue(ZERO) + (EmitValue(ZERO) + EmitValue(ZERO)))))))))
  }

  lemma ArrivalReads(name: Bytes, level: Bytes)
    requires |name| <= 127 && |level| <= 127
    ensures ReadApplication(Arrival(name, level)) == Application(name, [], level, level, ZERO.f, ZERO.f, ZERO.f)
  {
    hide RawString, ReadString, EmitValue, StringSize, ReadSingle, Swap;
    var p := Arrival(name, level);
    var position := EmitValue(ZERO) + (EmitValue(ZERO) + EmitValue(ZERO));
    var v := RawString([]) + position;
    var l := RawString(level) + v;
    var n := RawString(level) + l;
    var c := RawString([]) + n;
    assert p.bytes[1..] == RawString(name) + c;
    RawField(p, 1, name, c);
    var i1 := AfterString(p, 1);
    RawField(p, i1, [], n);
    var i2 := AfterString(p, i1);
    RawField(p, i2, level, l);
    var i3 := AfterString(p, i2);
    RawField(p, i3, level, v);
    var i4 := AfterString(p, i3);
    RawField(p, i4, [], position);
    SwapZero();
    Position(p, AfterString(p, i4), ZERO.f, ZERO.f, ZERO.f);
  }

  lemma SwapZero()
    ensures Swap(ZERO) == ZERO
  {
  }

  function Arrivals(names: seq<Bytes>, level: Bytes, g: Garbage): seq<Event>
    requires |level| <= 127 && forall n :: n in names ==> |n| <= 127
  {
    seq(|names|, i requires 0 <= i < |names| => SignOnEvent(Arrival(names[i], level), g))
  }

  predicate Allowed(cfg: Config, level: Bytes)
  {
    2 <= |level| <= 127 && (cfg.allowOtherMaps || exists i :: 0 <= i < |cfg.maps| && cfg.maps[i].1 == level)
  }

  /** Exactly these players are registered, all on this level. */
  ghost predicate Gathered(w: World, names: seq<Bytes>, level: Bytes)
  {
    (forall n :: n in w.st.clients <==>
      n in names) && forall n :: n in w.st.clients ==> w.st.clients[n].levelPath == level
  }

  /** Everybody is in good health, and nobody has sent an update or met anybody. */
  ghost predicate Idle(w: World)
  {
    && (forall n :: n in w.st.clients ==> w.full(n) == [] && Healthy(w.st.clients[n].vars))
    && (forall o, s :: o in w.st.clients && s in w.st.clients ==> w.links(o, s) == None)
  }

  /** Any list of different names is admitted to one level, whatever the names share up to a NUL. */
  lemma {:induction false} AllAdmitted(cfg: Config, names: seq<Bytes>, level: Bytes, g: Garbage)
    requires Allowed(cfg, level) && Distinct(names) && forall n :: n in names ==> |n| <= 127
    ensures Gathered(Run(cfg, Arrivals(names, level, g)), names, level) && Idle(Run(cfg, Arrivals(names, level, g)))
    decreases |names|
  {
    hide Next, Arrival, Invariant, Gathered, Idle;
    var events := Arrivals(names, level, g);
    if names == [] {
      NobodyGathered(level);
    } else {
      var front, last := names[..|names| - 1], names[|names| - 1];
      assert forall n :: n in front ==> n in names;
      assert last !in front;
      AllAdmitted(cfg, front, level, g);
      assert events[..|events| - 1] == Arrivals(front, level, g);
      RunInvariant(cfg, Arrivals(front, level, g));
      OneMore(cfg, Run(cfg, Arrivals(front, level, g)), front, last, level, g);
      OneMoreIdle(cfg, Run(cfg, Arrivals(front, level, g)), Arrival(last, level), g);
      assert names == front + [last];
    }
  }

  lemma NobodyGathered(level: Bytes)
    ensures Gathered(START, [], level) && Idle(START)
  {
  }

  lemma OneMore(cfg: Config, w: World, names: seq<Bytes>, name: Bytes, level: Bytes, g: Garbage)
    requires Invariant(w) && Allowed(cfg, level) && Gathered(w, names, level) && name !in names && |name| <= 127
    ensures OrderCovered(w.st) && Gathered(Next(cfg, w, SignOnEvent(Arrival(name, level), g)), names + [name], level)
  {
    hide Next, SignOn, React, ReadApplication, Sorted, PairOk, PlayerOk, Arrival, Entered, Recorded, Admitted;
    var p := Arrival(name, level);
    ArrivalReads(name, level);
    var a := ReadApplication(p);
    NotRefused(cfg, w.st, a);
    hide Refusal;
    SignOnUnfolded(cfg, w, p, g);
    SignOnNext(cfg, w, p, g);
    SignOnEffect(cfg, w.st, p, g);
    AdmittedLevel(cfg, a, g);
  }

  lemma OneMoreIdle(cfg: Config, w: World, p: Packet, g: Garbage)
    requires Invariant(w) && Idle(w)
    ensures OrderCovered(w.st) && Idle(Next(cfg, w, SignOnEvent(p, g)))
  {
    hide Next, React, SignOn, ReadApplication, Refusal, Sorted, PairOk, PlayerOk, Entered, Recorded, Healthy, Admitted;
    if Refusal(cfg, w.st, ReadApplication(p)).Some? {
      RefusedUnfolded(cfg, w, p, g);
    } else {
      SignOnUnfolded(cfg, w, p, g);
      SignOnNext(cfg, w, p, g);
      SignOnEffect(cfg, w.st, p, g);
      AdmittedHealthy(cfg, ReadApplication(p), g);
    }
  }

  lemma AdmittedHealthy(cfg: Config, a: Application, g: Garbage)
    ensures Healthy(Admitted(cfg, a, g).vars)
  {
    hide Admitted;
    AdmittedKeeps(cfg, a, g, PERMANENT_HEALTH);
    AdmittedKeeps(cfg, a, g, BLOOD_HEALTH);
    AdmittedKeeps(cfg, a, g, TEMP_HEALTH);
    AdmittedKeeps(cfg, a, g, KNOCKED_OUT);
  }

  lemma AdmittedKeeps(cfg: Config, a: Application, g: Garbage, t: Byte)
    requires 0 <= t < POSITION_X
    ensures Admitted(cfg, a, g).vars[t] == DefaultValue(t)
  {
    hide LevelName, DefaultValue;
  }

  lemma AdmittedLevel(cfg: Config, a: Application, g: Garbage)
    ensures Admitted(cfg, a, g).levelPath == a.levelPath
  {
  }

  lemma NotRefused(cfg: Config, st: State, a: Application)
    requires WellFormed(st) && a.username !in st.clients && a.levelName == a.levelPath && Allowed(cfg, a.levelPath)
    ensures Refusal(cfg, st, a).None?
  {
    hide Text;
    forall n | n in st.clients
      ensures st.clients[n].username == n
    {
      assert Entered(st.clients[n], n);
    }
  }

  // ---------------------------------------------------------------- packets and turns

  /** A packet that carries one variable. */
  function One(t: Byte, v: Value): Packet
    requires Fits(v, KindIn(PeerGrammar, t))
  {
    Whole(UpdatePacket(UPDATE_GAME, [RawRecord(t, Some(v))]))
  }

  /** The packets of a player that crouches or stands up, moves or faints, and of one with nothing to say. */
  function Crouch(b: bool): Packet
  {
    One(CROUCH, BoolValue(b))
  }

  const MOVE := One(POSITION_X, ZERO)

  const FAINT := One(KNOCKED_OUT, IntValue(1))

  const NOTHING := Whole([UPDATE_GAME])

  lemma OneRecord(t: Byte, v: Value)
    requires Fits(v, KindIn(PeerGrammar, t))
    ensures Records(PeerGrammar, One(t, v), 1) == [RawRecord(t, Some(v))]
    ensures Tags(Records(PeerGrammar, One(t, v), 1)) == [t]
  {
    hide Records, UpdatePacket;
    var rs: seq<Record> := [RawRecord(t, Some(v))];
    UpdatePacketRoundTrip(UPDATE_GAME, rs, i => 0);
    assert Tags(rs) == [t];
  }

  lemma CrouchRecords(b: bool)
    ensures Records(PeerGrammar, Crouch(b), 1) == [RawRecord(CROUCH, Some(BoolValue(b)))]
    ensures CROUCH in Tags(Records(PeerGrammar, Crouch(b), 1))
  {
    hide Records, One;
    OneRecord(CROUCH, BoolValue(b));
  }

  lemma DecodedVars(c: Session, p: Packet)
    ensures Decoded(c, p).vars == StoreAll(c.vars, Records(PeerGrammar, p, 1))
  {
    hide Records, StoreAll;
  }

  /** The variable is stored, and unless a revive rewrites it stays so. */
  lemma OneStored(c: Session, t: Byte, v: Value, now: int)
    requires Carried(t) && Fits(v, KindIn(PeerGrammar, t))
    ensures Decoded(c, One(t, v)).vars[t] == v
    ensures t !in RevivedVars(FateAt(c, One(t, v), now)) ==> Refreshed(c, One(t, v), now).0.vars[t] == v
  {
    hide Records, One, FateOf, Reverse, Decoded, Aftermath, StoreAll, RevivedVars;
    var rs: seq<Record> := [RawRecord(t, Some(v))];
    OneRecord(t, v);
    DecodedVars(c, One(t, v));
    StoreAllLast(c.vars, rs, 0);
    var decoded := Decoded(c, One(t, v));
    AftermathWrites(decoded.(inbox := []), now);
    FateIgnoresInbox(decoded, now);
  }

  lemma RevivesNoCrouch(fate: Fate)
    ensures CROUCH !in RevivedVars(fate)
  {
  }

  /** A player's own turn, as the player's fields see it. */
  lemma OwnTurn(cfg: Config, w: World, s: Bytes, p: Packet, now: int)
    requires WellFormed(w.st) && s in w.st.clients
    ensures var w1, after := Next(cfg, w, UpdateEvent(s, p, now)), Refreshed(w.st.clients[s], p, now).0;
            && s in w1.st.clients
            && w1.st.clients[s].vars == after.vars
            && w1.st.clients[s].deathChanged == after.deathChanged && w1.st.clients[s].timeOfDeath == after.timeOfDeath
            && w1.full(s) == FullAfter(w.full(s), p)
  {
    hide Next, React, Sorted, Entered, Settled, Sync, Peers, Refreshed, FateAt, Observed, FullAfter;
    UpdateUnfolded(cfg, w, s, p, now);
    SettledEffect(w.st.clients, s, p, now);
  }

  lemma CrouchTurn(cfg: Config, w: World, s: Bytes, b: bool, now: int)
    requires Invariant(w) && s in w.st.clients
    ensures OrderCovered(w.st)
    ensures var w1 := Next(cfg, w, UpdateEvent(s, Crouch(b), now));
            && s in w1.st.clients && w1.st.clients[s].vars[CROUCH] == BoolValue(b)
            && |w1.full(s)| == |w.full(s)| + 1
            && (forall o :: o != s && w.links(o, s) == None ==> w1.links(o, s) == None)
  {
    hide Next, React, Sorted, Entered, Settled, Sync, Peers, Refreshed, PairOk, PlayerOk, FateAt, Observed, Records,
      One, RevivedVars;
    UpdateUnfolded(cfg, w, s, Crouch(b), now);
    OwnTurn(cfg, w, s, Crouch(b), now);
    OneStored(w.st.clients[s], CROUCH, BoolValue(b), now);
    RevivesNoCrouch(FateAt(w.st.clients[s], Crouch(b), now));
    CrouchRecords(b);
  }

  /** An observer that has not met s meets it. */
  lemma MeetingTurn(cfg: Config, w: World, o: Bytes, s: Bytes, q: Packet, now: int)
    requires Invariant(w) && IsPeer(w.st.clients, o, s) && w.links(o, s) == None && w.full(s) != []
    ensures OrderCovered(w.st)
    ensures Next(cfg, w, UpdateEvent(o, q, now)).links(o, s) ==
            Some(Link(|w.full(s)| - 1, |w.full(s)| - 1, true, {}, {}))
  {
    hide Next, React, Sorted, Entered, Settled, Sync, Peers, Refreshed, PairOk, PlayerOk, FateAt, Missing, Window,
      FullAfter;
    UpdateUnfolded(cfg, w, o, q, now);
  }

  /** A player's update is no news of anybody else. */
  lemma Bystander(cfg: Config, w: World, s: Bytes, p: Packet, now: int, o: Bytes, n: Bytes)
    requires Invariant(w) && s in w.st.clients && o != s && n != s
    ensures OrderCovered(w.st)
    ensures var w1 := Next(cfg, w, UpdateEvent(s, p, now));
            && w1.full(n) == w.full(n) && w1.links(o, n) == w.links(o, n)
            && w1.st.clients.Keys == w.st.clients.Keys
            && (forall x :: x in w.st.clients ==> x in w1.st.clients && SameIdentity(w.st.clients[x], w1.st.clients[x]))
            && (n in w.st.clients ==> SameButInbox(w.st.clients[n], w1.st.clients[n]))
  {
    hide Next, React, Sorted, Entered, Settled, Sync, Peers, Refreshed, PairOk, PlayerOk, FateAt, Observed, FullAfter;
    UpdateUnfolded(cfg, w, s, p, now);
    SettledEffect(w.st.clients, s, p, now);
    NextRegistry(cfg, w, UpdateEvent(s, p, now));
  }
}
