/** Episodes of death: when a death is announced and when a revive happens, over whole runs. */
module Death {
  import opened Wire
  import opened History
  import opened Clients
  import opened Server
  import opened Registry
  import opened Replication
  import opened Health

  /** One update of a player: whether it was found down, the clock, and what was done. */
  datatype Tick = Tick(dead: bool, now: int, fate: Fate)

  /** The updates of n since it signed on. */
  function Ticks(cfg: Config, events: seq<Event>, n: Bytes): seq<Tick>
  {
    if events == [] then []
    else
      var before := events[..|events| - 1];
      var st := Run(cfg, before).st;
      if n !in st.clients then [] else Ticks(cfg, before, n) + TickOf(st, events[|events| - 1], n)
  }

  function TickOf(st: State, e: Event, n: Bytes): seq<Tick>
    requires n in st.clients
  {
    if e.UpdateEvent? && e.who == n then
      [Tick(!Standing(AfterPacket(st.clients[n], e.packet)), e.now, FateAt(st.clients[n], e.packet, e.now))]
    else []
  }

  /** The arbitrary death flag n was constructed with. */
  function InitialFlag(cfg: Config, events: seq<Event>, n: Bytes): bool
  {
    if events == [] then false
    else
      var before := events[..|events| - 1];
      var e := events[|events| - 1];
      if n in Run(cfg, before).st.clients then InitialFlag(cfg, before, n)
      else e.SignOnEvent? && e.garbage.deathChanged
  }

  /** Whether the player counted as dead before tick i. */
  function DeadBefore(ts: seq<Tick>, flag: bool, i: nat): bool
    requires i <= |ts|
  {
    if i == 0 then flag else ts[i - 1].dead
  }

  /** When the episode that tick i belongs to was opened: the clock of its first dead tick, or the
      constructor's 0 for an episode opened by the arbitrary initial flag. */
  function Opening(ts: seq<Tick>, flag: bool, i: nat): int
    requires i < |ts|
  {
    if DeadBefore(ts, flag, i) then (if i == 0 then 0 else Opening(ts, flag, i - 1)) else ts[i].now
  }

  /** The rule for tick i, from the verdicts and clocks alone. */
  function Verdict(ts: seq<Tick>, flag: bool, i: nat): Fate
    requires i < |ts|
  {
    if !ts[i].dead then Alive
    else if !DeadBefore(ts, flag, i) then Announced
    else if ts[i].now - Opening(ts, flag, i) > 5 then Fate.Revived
    else Waiting
  }

  ghost predicate Lawful(ts: seq<Tick>, flag: bool)
  {
    forall i :: 0 <= i < |ts| ==> ts[i].fate == Verdict(ts, flag, i)
  }

  /** The player's fields sum up its ticks. */
  ghost predicate Tracked(c: Session, ts: seq<Tick>, flag: bool)
  {
    && c.deathChanged == DeadBefore(ts, flag, |ts|)
    && (c.deathChanged ==> c.timeOfDeath == if ts == [] then 0 else Opening(ts, flag, |ts| - 1))
  }

  lemma {:induction false} OpeningPrefix(ts: seq<Tick>, t: Tick, flag: bool, i: nat)
    requires i < |ts|
    ensures Opening(ts + [t], flag, i) == Opening(ts, flag, i)
  {
    if i > 0 {
      OpeningPrefix(ts, t, flag, i - 1);
    }
  }

  /** One tick keeps the law and the summary. */
  lemma TickLawful(c: Session, ts: seq<Tick>, flag: bool, p: Packet, now: int)
    requires Tracked(c, ts, flag) && Lawful(ts, flag)
    ensures var t := Tick(!Standing(AfterPacket(c, p)), now, FateAt(c, p, now));
            Lawful(ts + [t], flag) && Tracked(Refreshed(c, p, now).0, ts + [t], flag)
  {
    var t := Tick(!Standing(AfterPacket(c, p)), now, FateAt(c, p, now));
    VerdictIff(c, p, now);
    VerdictKept(c, p, now);
    hide FateAt, Refreshed, AfterPacket, Standing, DiedNotice;
    var longer := ts + [t];
    forall i | 0 <= i < |ts|
      ensures longer[i].fate == Verdict(longer, flag, i)
    {
      OpeningPrefix(ts, t, flag, i);
    }
    if ts != [] {
      OpeningPrefix(ts, t, flag, |ts| - 1);
    }
  }

  lemma TrackedKept(c: Session, d: Session, ts: seq<Tick>, flag: bool)
    requires Tracked(c, ts, flag) && SameButInbox(c, d)
    ensures Tracked(d, ts, flag)
  {
  }

  /** One event, for a player that was registered before it. */
  lemma NextTracked(cfg: Config, w: World, e: Event, n: Bytes, ts: seq<Tick>, flag: bool)
    requires WellFormed(w.st) && n in w.st.clients && !e.DisconnectEvent?
    requires Tracked(w.st.clients[n], ts, flag) && Lawful(ts, flag)
    ensures n in Next(cfg, w, e).st.clients
    ensures var longer := ts + TickOf(w.st, e, n);
            Lawful(longer, flag) && Tracked(Next(cfg, w, e).st.clients[n], longer, flag)
  {
    hide Next, React, Settled, Sync, Peers, Refreshed, FateAt, Sorted, Entered, ReadApplication, Refusal, Decoded,
      Standing, Lawful, Tracked, Recorded, Mail, Answered;
    assert ts + [] == ts;
    match e
    case SignOnEvent(p, g) =>
      if Refusal(cfg, w.st, ReadApplication(p)).Some? {
        RefusedUnfolded(cfg, w, p, g);
      } else {
        SignOnUnfolded(cfg, w, p, g);
        TrackedKept(w.st.clients[n], Next(cfg, w, e).st.clients[n], ts, flag);
      }
    case ChatEvent(_, _) =>
      MinorUnfolded(cfg, w, e);
      TrackedKept(w.st.clients[n], Next(cfg, w, e).st.clients[n], ts, flag);
    case QueryEvent(_, _) =>
      MinorUnfolded(cfg, w, e);
      TrackedKept(w.st.clients[n], Next(cfg, w, e).st.clients[n], ts, flag);
    case OutsideEvent(_, _, _) =>
      MinorUnfolded(cfg, w, e);
      TrackedKept(w.st.clients[n], Next(cfg, w, e).st.clients[n], ts, flag);
    case UpdateEvent(me, p, now) =>
      if me !in w.st.clients {
        IdleUpdate(cfg, w, me, p, now);
      } else {
        UpdateUnfolded(cfg, w, me, p, now);
        SettledEffect(w.st.clients, me, p, now);
        if n == me {
          TickLawful(w.st.clients[n], ts, flag, p, now);
          TrackedRekeyed(Refreshed(w.st.clients[n], p, now).0, Next(cfg, w, e).st.clients[n],
                         ts + TickOf(w.st, e, n), flag);
        } else {
          TrackedKept(w.st.clients[n], Next(cfg, w, e).st.clients[n], ts, flag);
        }
      }
  }

  lemma TrackedRekeyed(c: Session, d: Session, ts: seq<Tick>, flag: bool)
    requires Tracked(c, ts, flag) && d.deathChanged == c.deathChanged && d.timeOfDeath == c.timeOfDeath
    ensures Tracked(d, ts, flag)
  {
  }

  lemma NewcomerTracked(cfg: Config, w: World, e: Event, n: Bytes)
    requires WellFormed(w.st) && n !in w.st.clients
    ensures n in Next(cfg, w, e).st.clients ==>
              Tracked(Next(cfg, w, e).st.clients[n], [], e.SignOnEvent? && e.garbage.deathChanged)
  {
    hide Next, React, Settled, Sync, Peers, Refreshed, Sorted, Entered, ReadApplication, Refusal, Admitted, SignOn,
      Mail, Answered;
    match e
    case SignOnEvent(p, g) =>
      if Refusal(cfg, w.st, ReadApplication(p)).Some? {
        RefusedUnfolded(cfg, w, p, g);
      } else {
        SignOnUnfolded(cfg, w, p, g);
        SignOnNext(cfg, w, p, g);
        SignOnEffect(cfg, w.st, p, g);
        AdmittedTracked(cfg, ReadApplication(p), g);
      }
    case DisconnectEvent =>
      DisconnectUnfolded(cfg, w);
    case ChatEvent(_, _) =>
      MinorUnfolded(cfg, w, e);
    case QueryEvent(_, _) =>
      MinorUnfolded(cfg, w, e);
    case OutsideEvent(_, _, _) =>
      MinorUnfolded(cfg, w, e);
    case UpdateEvent(me, p, now) =>
      if me in w.st.clients {
        UpdateUnfolded(cfg, w, me, p, now);
      } else {
        IdleUpdate(cfg, w, me, p, now);
      }
  }

  lemma AdmittedTracked(cfg: Config, a: Application, g: Garbage)
    ensures Tracked(Admitted(cfg, a, g), [], g.deathChanged)
  {
  }

  /** In every run, for every player and whatever its initial flag: the flag is the last verdict, a
      death is announced exactly at an alive-to-dead change of verdicts, and a revive happens exactly
      when a dead player stays dead strictly more than five seconds after its episode was opened. */
  lemma {:induction false} DeathEpisodes(cfg: Config, events: seq<Event>, n: Bytes)
    ensures n in Run(cfg, events).st.clients ==>
              var ts, flag := Ticks(cfg, events, n), InitialFlag(cfg, events, n);
              Lawful(ts, flag) && Tracked(Run(cfg, events).st.clients[n], ts, flag)
  {
    hide Next, React, Invariant, TickOf, Lawful, Tracked;
    if events == [] {
      NobodyAtStart(n);
    } else {
      var before, e := events[..|events| - 1], events[|events| - 1];
      var w := Run(cfg, before);
      RunWellFormed(cfg, before);
      DeathEpisodes(cfg, before, n);
      if e.DisconnectEvent? {
        DisconnectUnfolded(cfg, w);
      } else if n in w.st.clients {
        NextTracked(cfg, w, e, n, Ticks(cfg, before, n), InitialFlag(cfg, before, n));
      } else {
        NewcomerTracked(cfg, w, e, n);
        NoTicksLawful(e.SignOnEvent? && e.garbage.deathChanged);
      }
    }
  }

  lemma RunWellFormed(cfg: Config, events: seq<Event>)
    ensures WellFormed(Run(cfg, events).st)
  {
    RunInvariant(cfg, events);
    hide Run, PlayerOk, PairOk, Sorted, Entered, OrderCovered;
  }

  lemma NoTicksLawful(flag: bool)
    ensures Lawful([], flag)
  {
  }

  /** Between two announcements the player was found alive: a revive never causes a second
      announcement of the same episode. */
  lemma {:induction false} OneAnnouncementPerEpisode(ts: seq<Tick>, flag: bool, i: nat, j: nat)
    requires Lawful(ts, flag) && i < j < |ts| && ts[i].fate == Announced && ts[j].fate == Announced
    ensures exists k :: i < k < j && !ts[k].dead
  {
    assert ts[j].fate == Verdict(ts, flag, j) && ts[i].fate == Verdict(ts, flag, i);
    assert i < j - 1 && !ts[j - 1].dead;
  }

  lemma OneIsPositive()
    ensures !NonPositive(ONE)
  {
  }

  const VITAL: set<Byte> := {PERMANENT_HEALTH, BLOOD_HEALTH, TEMP_HEALTH, KNOCKED_OUT}

  /** A revive ends the episode at the player's next update, unless that update touches one of the
      four variables of the health test. */
  lemma {:induction false} ReviveEndsEpisode(c: Session, p: Packet, now: int, q: Packet, later: int)
    requires FateAt(c, p, now) == Fate.Revived
    requires forall t :: t in VITAL ==> t !in Tags(Records(PeerGrammar, q, 1))
    ensures FateAt(Refreshed(c, p, now).0, q, later) == Alive
  {
    hide FateAt, Refreshed, Decoded, Records, VITAL, Healthy;
    var healed := Refreshed(c, p, now).0;
    RevivedIsHealthy(c, p, now);
    DecodedHealthy(healed, q);
    HealthyIsAlive(Decoded(healed, q), later);
    FateAtDecoded(healed, q, later);
  }

  lemma FateAtDecoded(c: Session, q: Packet, now: int)
    ensures FateAt(c, q, now) == FateOf(Decoded(c, q), now)
  {
    hide FateOf, Decoded;
  }

  /** The health test as a revive leaves it. */
  predicate Healthy(vars: Vars)
  {
    vars[PERMANENT_HEALTH] == ONE && vars[BLOOD_HEALTH] == ONE && vars[TEMP_HEALTH] == ONE && vars[KNOCKED_OUT] == AWAKE
  }

  lemma HealthyIsAlive(c: Session, now: int)
    requires Healthy(c.vars)
    ensures FateOf(c, now) == Alive
  {
    OneIsPositive();
    hide NonPositive;
  }

  lemma RevivedIsHealthy(c: Session, p: Packet, now: int)
    requires FateAt(c, p, now) == Fate.Revived
    ensures Healthy(Refreshed(c, p, now).0.vars)
  {
    VitalRevived();
    hide Refreshed, FateAt, REVIVE;
    RevivedHealed(c, p, now, PERMANENT_HEALTH, ONE);
    RevivedHealed(c, p, now, BLOOD_HEALTH, ONE);
    RevivedHealed(c, p, now, TEMP_HEALTH, ONE);
    RevivedHealed(c, p, now, KNOCKED_OUT, AWAKE);
  }

  lemma VitalRevived()
    ensures RawRecord(PERMANENT_HEALTH, Some(ONE)) in REVIVE && RawRecord(BLOOD_HEALTH, Some(ONE)) in REVIVE
    ensures RawRecord(TEMP_HEALTH, Some(ONE)) in REVIVE && RawRecord(KNOCKED_OUT, Some(AWAKE)) in REVIVE
  {
    assert REVIVE[1] in REVIVE && REVIVE[0] in REVIVE && REVIVE[4] in REVIVE && REVIVE[5] in REVIVE;
  }

  lemma DecodedHealthy(c: Session, q: Packet)
    requires forall t :: t in VITAL ==> t !in Tags(Records(PeerGrammar, q, 1))
    ensures Healthy(c.vars) ==> Healthy(Decoded(c, q).vars)
  {
    hide Records, StoreAll;
    var rs := Records(PeerGrammar, q, 1);
    AssignedAreTags(rs);
    assert PERMANENT_HEALTH in VITAL && BLOOD_HEALTH in VITAL && TEMP_HEALTH in VITAL && KNOCKED_OUT in VITAL;
    StoreAllUntouched(c.vars, rs, PERMANENT_HEALTH);
    StoreAllUntouched(c.vars, rs, BLOOD_HEALTH);
    StoreAllUntouched(c.vars, rs, TEMP_HEALTH);
    StoreAllUntouched(c.vars, rs, KNOCKED_OUT);
  }
}
