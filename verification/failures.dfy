/** Runs from an empty server that go wrong: an observer that lags too far, and one that a revive misleads. */
module Failures {
  import opened Wire
  import opened History
  import opened Clients
  import opened Server
  import opened Registry
  import opened Replication
  import opened Schedules
  import opened Death
  import opened Revives
  import opened Baseline
  import opened Speakers
  import opened Gathering

  // ---------------------------------------------------------------- two players

  const OBSERVER: Bytes := [66]
  const SENDER: Bytes := [65]
  const PAIR: seq<Bytes> := [OBSERVER, SENDER]

  lemma PairNames()
    ensures Distinct(PAIR) && OBSERVER != SENDER
    ensures forall n :: n in PAIR <==> n == OBSERVER || n == SENDER
    ensures forall n :: n in PAIR ==> |n| <= 127
  {
  }

  /** The observer has met the sender at its first update, and its key still names that one. */
  ghost predicate Lagging(w: World, full: seq<seq<Byte>>)
  {
    && Distinguished(w, OBSERVER, SENDER) && w.full(SENDER) == full
    && w.links(OBSERVER, SENDER).Some?
    && var l := w.links(OBSERVER, SENDER).value; l.pos == 0 && l.base == 0 && l.timely
  }

  lemma Alone(w: World, level: Bytes)
    requires Gathered(w, PAIR, level)
    ensures Distinguished(w, OBSERVER, SENDER)
  {
    PairNames();
    hide PAIR, OBSERVER, SENDER;
    assert OBSERVER in w.st.clients && SENDER in w.st.clients;
  }

  /** A packet of the sender does not move the observer's key. */
  lemma SendStep(cfg: Config, w: World, full: seq<seq<Byte>>, t: Byte, v: Value, now: int)
    requires Invariant(w) && Lagging(w, full) && Fits(v, KindIn(PeerGrammar, t))
    ensures OrderCovered(w.st) && Lagging(Next(cfg, w, UpdateEvent(SENDER, One(t, v), now)), full + [[t]])
  {
    hide Next, React, Sorted, Entered, Settled, Sync, Peers, Refreshed, PairOk, PlayerOk, FateAt, Records, One,
      RevivedVars, Unambiguous, SameLevel;
    var p := One(t, v);
    UpdateUnfolded(cfg, w, SENDER, p, now);
    SettledEffect(w.st.clients, SENDER, p, now);
    NextRegistry(cfg, w, UpdateEvent(SENDER, p, now));
    OneRecord(t, v);
    StillDistinguished(w, Next(cfg, w, UpdateEvent(SENDER, p, now)), OBSERVER, SENDER);
  }

  lemma SendAfter(cfg: Config, events: seq<Event>, full: seq<seq<Byte>>, t: Byte, v: Value, now: int)
    requires Lagging(Run(cfg, events), full) && Fits(v, KindIn(PeerGrammar, t))
    ensures Lagging(Run(cfg, events + [UpdateEvent(SENDER, One(t, v), now)]), full + [[t]])
  {
    hide Run, Lagging, Invariant, One;
    var e := UpdateEvent(SENDER, One(t, v), now);
    RunInvariant(cfg, events);
    SendStep(cfg, Run(cfg, events), full, t, v, now);
    OneAfter(cfg, events, e);
  }

  lemma OneAfter(cfg: Config, events: seq<Event>, e: Event)
    ensures Run(cfg, events + [e]) == Next(cfg, Run(cfg, events), e)
  {
    hide Next;
    LastOf(cfg, events, [e]);
    assert events + [e][..0] == events;
  }

  /** The sender is in good health and not counted as dead. */
  ghost predicate Well(w: World)
  {
    SENDER in w.st.clients && Healthy(w.st.clients[SENDER].vars) && !w.st.clients[SENDER].deathChanged
  }

  /** Both sign on, the sender moves, and the observer meets it. */
  function Opening(level: Bytes, g: Garbage): seq<Event>
    requires |level| <= 127
  {
    Arrivals(PAIR, level, g) + [UpdateEvent(SENDER, MOVE, 0)] + [UpdateEvent(OBSERVER, NOTHING, 0)]
  }

  lemma Meets(cfg: Config, level: Bytes, g: Garbage)
    requires Allowed(cfg, level)
    ensures Lagging(Run(cfg, Opening(level, g)), [[POSITION_X]]) && Well(Run(cfg, Opening(level, g)))
  {
    hide Run, Arrivals, Invariant, Gathered, Idle, NOTHING, OBSERVER, SENDER, PAIR;
    PairNames();
    var arrivals := Arrivals(PAIR, level, g);
    AllAdmitted(cfg, PAIR, level, g);
    RunInvariant(cfg, arrivals);
    var e1, e2 := UpdateEvent(SENDER, MOVE, 0), UpdateEvent(OBSERVER, NOTHING, 0);
    OneAfter(cfg, arrivals, e1);
    OneAfter(cfg, arrivals + [e1], e2);
    MeetSteps(cfg, Run(cfg, arrivals), level);
  }

  lemma MeetSteps(cfg: Config, w: World, level: Bytes)
    requires Invariant(w) && Gathered(w, PAIR, level) && Idle(w)
    ensures OrderCovered(w.st) && OrderCovered(Next(cfg, w, UpdateEvent(SENDER, MOVE, 0)).st)
    ensures var w2 := Next(cfg, Next(cfg, w, UpdateEvent(SENDER, MOVE, 0)), UpdateEvent(OBSERVER, NOTHING, 0));
            Lagging(w2, [[POSITION_X]]) && Well(w2)
  {
    hide Next, Invariant, Gathered, NOTHING, One, Records, Unambiguous, SameLevel, SameIdentity, Healthy;
    Alone(w, level);
    NextKeepsInvariant(cfg, w, UpdateEvent(SENDER, MOVE, 0));
    var w1 := Next(cfg, w, UpdateEvent(SENDER, MOVE, 0));
    OneRecord(POSITION_X, ZERO);
    FirstSent(cfg, w);
    FirstWell(cfg, w);
    StillDistinguished(w, w1, OBSERVER, SENDER);
    MeetingTurn(cfg, w1, OBSERVER, SENDER, NOTHING, 0);
    NextKeepsInvariant(cfg, w1, UpdateEvent(OBSERVER, NOTHING, 0));
    Bystander(cfg, w1, OBSERVER, NOTHING, 0, SENDER, SENDER);
    StillDistinguished(w1, Next(cfg, w1, UpdateEvent(OBSERVER, NOTHING, 0)), OBSERVER, SENDER);
  }

  lemma FirstSent(cfg: Config, w: World)
    requires Invariant(w) && Distinguished(w, OBSERVER, SENDER) && Idle(w)
    ensures OrderCovered(w.st)
    ensures var w1 := Next(cfg, w, UpdateEvent(SENDER, MOVE, 0));
            && w1.full(SENDER) == [[POSITION_X]] && w1.links(OBSERVER, SENDER) == None
            && w1.st.clients.Keys == w.st.clients.Keys
            && forall n :: n in w.st.clients ==> n in w1.st.clients && SameIdentity(w.st.clients[n], w1.st.clients[n])
  {
    hide Next, React, Sorted, Entered, Settled, Sync, Peers, Refreshed, PairOk, PlayerOk, FateAt, Records, One,
      RevivedVars, Unambiguous, SameLevel, Healthy;
    UpdateUnfolded(cfg, w, SENDER, MOVE, 0);
    SettledEffect(w.st.clients, SENDER, MOVE, 0);
    NextRegistry(cfg, w, UpdateEvent(SENDER, MOVE, 0));
    OneRecord(POSITION_X, ZERO);
  }

  lemma FirstWell(cfg: Config, w: World)
    requires Invariant(w) && Distinguished(w, OBSERVER, SENDER) && Idle(w)
    ensures OrderCovered(w.st) && Well(Next(cfg, w, UpdateEvent(SENDER, MOVE, 0)))
  {
    hide Next, Healthy, One, PairOk, PlayerOk, Refreshed;
    OwnTurn(cfg, w, SENDER, MOVE, 0);
    StaysUp(w.st.clients[SENDER], 0);
  }

  lemma MoveTouchesNoHealth()
    ensures Tags(Records(PeerGrammar, MOVE, 1)) == [POSITION_X] && forall t :: t in VITAL ==> t != POSITION_X
  {
    OneRecord(POSITION_X, ZERO);
    hide Records, One;
  }

  /** A healthy player that moves is found alive. */
  lemma StaysUp(c: Session, now: int)
    requires Healthy(c.vars)
    ensures var after := Refreshed(c, MOVE, now).0; Healthy(after.vars) && !after.deathChanged
  {
    hide Decoded, FateOf, Records, One, Healthy, VITAL;
    MoveTouchesNoHealth();
    var decoded := Decoded(c, MOVE);
    DecodedHealthy(c, MOVE);
    HealthyIsAlive(decoded.(inbox := []), now);
  }

  // ---------------------------------------------------------------- lagging too far

  /** The sender moves n times. */
  function Moves(n: nat): seq<Event>
  {
    seq(n, i => UpdateEvent(SENDER, MOVE, 0))
  }

  /** It moved when it was met, then crouched, and then moved n times. */
  function Pattern(n: nat): (full: seq<seq<Byte>>)
    ensures |full| == n + 2
  {
    seq(n + 2, i requires 0 <= i => if i == 1 then [CROUCH] else [POSITION_X])
  }

  lemma {:induction false} MovesAfter(cfg: Config, events: seq<Event>, n: nat)
    requires Lagging(Run(cfg, events), Pattern(0))
    ensures Lagging(Run(cfg, events + Moves(n)), Pattern(n))
    decreases n
  {
    hide Run, Lagging, One;
    if n == 0 {
      assert events + Moves(0) == events;
    } else {
      MovesAfter(cfg, events, n - 1);
      SendAfter(cfg, events + Moves(n - 1), Pattern(n - 1), POSITION_X, ZERO, 0);
      assert events + Moves(n) == events + Moves(n - 1) + [UpdateEvent(SENDER, MOVE, 0)];
      assert Pattern(n) == Pattern(n - 1) + [[POSITION_X]];
    }
  }

  lemma PatternTouched(n: nat, from: int, to: int)
    ensures Touched(Pattern(n), from, to, CROUCH) <==> from <= 1 < to
  {
    assert Pattern(n)[1] == [CROUCH];
  }

  /** What the observer was not sent after they met it does not know. */
  lemma NotHeard(cfg: Config, events: seq<Event>, n: nat)
    requires Lagging(Run(cfg, events), Pattern(n))
    ensures !Current(Run(cfg, events), OBSERVER, SENDER, CROUCH)
  {
    hide Run, Replica, Unambiguous, Touched, CStr;
    ReplicaDomain(cfg, events, OBSERVER, SENDER, CROUCH);
    PatternTouched(n, 1, 1);
  }

  /** Everything up to the turn: the sender crouches, and falls silent but for lag - 1 moves. */
  function Falling(level: Bytes, g: Garbage, lag: nat): seq<Event>
    requires |level| <= 127 && lag > 0
  {
    Opening(level, g) + [UpdateEvent(SENDER, Crouch(true), 0)] + Moves(lag - 1)
  }

  /** For every lag a run from an empty server: the sender crouches and then moves until the observer is
      so many updates behind, and the observer updates. It learns of the crouching if and only if the lag
      is at most nine; and beyond that it still can only at 0 and 10 modulo 11, where nothing is sent. */
  lemma {:induction false} LagFails(cfg: Config, level: Bytes, g: Garbage, lag: nat)
    requires Allowed(cfg, level) && lag > 0
    ensures var w := Run(cfg, Falling(level, g, lag) + [UpdateEvent(OBSERVER, NOTHING, 0)]);
            && Distinguished(w, OBSERVER, SENDER)
            && (Current(w, OBSERVER, SENDER, CROUCH) <==> lag <= 9)
            && (Pending(w, OBSERVER, SENDER, CROUCH) <==> lag % KEYS in {0, MAX_HISTORY})
  {
    hide Run, Opening, Lagging, Current, Pending, Distinguished, NOTHING, One, OBSERVER, SENDER;
    var opening, crouch := Opening(level, g), UpdateEvent(SENDER, Crouch(true), 0);
    Meets(cfg, level, g);
    SendAfter(cfg, opening, [[POSITION_X]], CROUCH, BoolValue(true), 0);
    assert Pattern(0) == [[POSITION_X]] + [[CROUCH]];
    MovesAfter(cfg, opening + [crouch], lag - 1);
    var events := Falling(level, g, lag);
    NotHeard(cfg, events, lag - 1);
    TurnIff(cfg, events, OBSERVER, NOTHING, 0, SENDER, CROUCH);
    LaggingTurn(cfg, events, lag);
  }

  lemma PatternNamed(lag: nat)
    requires lag > 0
    ensures Named(Pattern(lag - 1), 0, CROUCH) <==> lag <= 9
    ensures Missing(Window(Pattern(lag - 1)), 0) == [] <==> lag % KEYS in {0, MAX_HISTORY}
  {
    hide Missing, Window, Touched;
    var full := Pattern(lag - 1);
    PatternTouched(lag - 1, |full| - lag % KEYS, |full|);
    MissingEmptyIff(full, 0);
  }

  lemma LaggingTurn(cfg: Config, events: seq<Event>, lag: nat)
    requires lag > 0 && Lagging(Run(cfg, events), Pattern(lag - 1))
    ensures Distinguished(Run(cfg, events), OBSERVER, SENDER)
    ensures Sends(Run(cfg, events), OBSERVER, SENDER, CROUCH) <==> lag <= 9
    ensures var w := Run(cfg, events + [UpdateEvent(OBSERVER, NOTHING, 0)]);
            Distinguished(w, OBSERVER, SENDER) && (Pending(w, OBSERVER, SENDER, CROUCH) <==>
              lag % KEYS in {0, MAX_HISTORY})
  {
    hide Run, Next, Invariant, Unambiguous, NOTHING, Missing, Window, TypesSince, OBSERVER, SENDER, SameLevel, Named,
      Pattern, Touched;
    var w, full := Run(cfg, events), Pattern(lag - 1);
    PatternNamed(lag);
    PatternTouched(lag - 1, 1, |full|);
    PatternTouched(lag - 1, |full|, |full|);
    ObserverTurn(cfg, events, full);
  }

  /** The observer's turn. */
  lemma ObserverTurn(cfg: Config, events: seq<Event>, full: seq<seq<Byte>>)
    requires Lagging(Run(cfg, events), full)
    ensures var w, w1 := Run(cfg, events), Run(cfg, events + [UpdateEvent(OBSERVER, NOTHING, 0)]);
            && Distinguished(w1, OBSERVER, SENDER) && w1.full(SENDER) == full
            && w1.links(OBSERVER, SENDER) == Observed(w.links(OBSERVER, SENDER), full)
            && SameButInbox(w.st.clients[SENDER], w1.st.clients[SENDER])
  {
    hide Run, Next, React, Sorted, Entered, Settled, Sync, Peers, Refreshed, PairOk, PlayerOk, FateAt, Unambiguous,
      NOTHING, OBSERVER, SENDER, SameLevel, Observed, SameIdentity, SameButInbox, FullAfter;
    var w, e := Run(cfg, events), UpdateEvent(OBSERVER, NOTHING, 0);
    PairNames();
    RunInvariant(cfg, events);
    OneAfter(cfg, events, e);
    UpdateUnfolded(cfg, w, OBSERVER, NOTHING, 0);
    Bystander(cfg, w, OBSERVER, NOTHING, 0, SENDER, SENDER);
    StillDistinguished(w, Next(cfg, w, e), OBSERVER, SENDER);
  }

  // ---------------------------------------------------------------- misled by a revive

  lemma Unconscious(vars: Vars)
    requires vars[KNOCKED_OUT] == IntValue(1)
    ensures Dead(vars)
  {
    hide NonPositive;
  }

  /** A player that faints is announced dead. */
  lemma Faints(c: Session)
    requires !c.deathChanged
    ensures var after := Refreshed(c, FAINT, 0).0;
            after.vars[KNOCKED_OUT] == IntValue(1) && after.deathChanged && after.timeOfDeath == 0
  {
    hide Decoded, Dead, One, DiedNotice;
    var decoded := Decoded(c, FAINT);
    DecodedIdentity(c, FAINT);
    OneStored(c, KNOCKED_OUT, IntValue(1), 0);
    Unconscious(decoded.vars);
  }

  /** And revived at its first update after the delay. */
  lemma IsRevived(c: Session)
    requires c.vars[KNOCKED_OUT] == IntValue(1) && c.deathChanged && c.timeOfDeath == 0
    ensures FateAt(c, MOVE, 6) == Fate.Revived
  {
    hide Decoded, Dead, One, Records, StoreAll;
    DecodedIdentity(c, MOVE);
    MoveTouchesNoHealth();
    DecodedVars(c, MOVE);
    var rs := Records(PeerGrammar, MOVE, 1);
    AssignedAreTags(rs);
    StoreAllUntouched(c.vars, rs, KNOCKED_OUT);
    Unconscious(Decoded(c, MOVE).vars);
  }

  /** The sender faints, the observer hears of it, and after the delay the sender's next move revives it. */
  function Mourning(level: Bytes, g: Garbage): seq<Event>
    requires |level| <= 127
  {
    Opening(level, g) + [UpdateEvent(SENDER, FAINT, 0)] + [UpdateEvent(OBSERVER, NOTHING, 0)]
  }

  const REVIVING := UpdateEvent(SENDER, MOVE, 6)

  /** From an empty server a run, with any continuation in which the sender says nothing of its
      consciousness: the sender is awake, and the observer takes it to be knocked out. */
  lemma {:induction false} ReviveFails(cfg: Config, level: Bytes, g: Garbage, more: seq<Event>)
    requires Allowed(cfg, level) && forall e :: e in more ==> Silent(e, SENDER, KNOCKED_OUT)
    ensures var w := Run(cfg, Mourning(level, g) + ([REVIVING] + more));
            && (more == [] ==> Unambiguous(w.st.clients, OBSERVER, SENDER))
            && (Unambiguous(w.st.clients, OBSERVER, SENDER) ==>
                  && SENDER in w.st.clients && w.st.clients[SENDER].vars[KNOCKED_OUT] == AWAKE
                  && Holds(Replica(w.sent(OBSERVER), CStr(SENDER)), KNOCKED_OUT, IntValue(1))
                  && !Current(w, OBSERVER, SENDER, KNOCKED_OUT))
  {
    hide Run, Mourning, Pending, IsPeer, Unambiguous, Replica, CStr, FateAt, Silent, One, OBSERVER, SENDER, SameLevel,
      Carried;
    var mourning := Mourning(level, g);
    Mourns(cfg, level, g);
    ReviveAllowed();
    ReviveNotReplicated(cfg, mourning, SENDER, MOVE, 6, more, OBSERVER, KNOCKED_OUT, AWAKE);
    if more == [] {
      assert mourning + ([REVIVING] + more) == mourning + [REVIVING];
      RevivedStaysAlone(cfg, mourning);
    }
  }

  lemma ReviveAllowed()
    ensures Carried(KNOCKED_OUT) && RawRecord(KNOCKED_OUT, Some(AWAKE)) in REVIVE
    ensures KNOCKED_OUT !in Tags(Records(PeerGrammar, MOVE, 1))
  {
    MoveTouchesNoHealth();
    VitalRevived();
    hide Records, One, REVIVE;
  }

  lemma RevivedStaysAlone(cfg: Config, events: seq<Event>)
    requires Distinguished(Run(cfg, events), OBSERVER, SENDER)
    ensures Unambiguous(Run(cfg, events + [REVIVING]).st.clients, OBSERVER, SENDER)
  {
    hide Run, Next, React, Sorted, Entered, Settled, Sync, Peers, Refreshed, PairOk, PlayerOk, FateAt, Unambiguous, One,
      OBSERVER, SENDER, SameLevel;
    var w := Run(cfg, events);
    RunInvariant(cfg, events);
    OneAfter(cfg, events, REVIVING);
    UpdateUnfolded(cfg, w, SENDER, MOVE, 6);
    SettledEffect(w.st.clients, SENDER, MOVE, 6);
    NextRegistry(cfg, w, REVIVING);
    StillDistinguished(w, Next(cfg, w, REVIVING), OBSERVER, SENDER);
  }

  /** When the sender is about to be revived the observer knows that it is knocked out. */
  lemma Mourns(cfg: Config, level: Bytes, g: Garbage)
    requires Allowed(cfg, level)
    ensures var w := Run(cfg, Mourning(level, g));
            && Distinguished(w, OBSERVER, SENDER) && !Pending(w, OBSERVER, SENDER, KNOCKED_OUT)
            && Holds(Replica(w.sent(OBSERVER), CStr(SENDER)), KNOCKED_OUT, IntValue(1))
            && SENDER in w.st.clients && FateAt(w.st.clients[SENDER], MOVE, 6) == Fate.Revived
  {
    hide Run, Opening, Invariant, Unambiguous, Replica, CStr, FateAt, One, OBSERVER, SENDER, SameLevel, Healthy,
      Touched, NOTHING, Missing, Window, TypesSince, Records, Refreshed;
    var opening, faint := Opening(level, g), UpdateEvent(SENDER, FAINT, 0);
    var w := Run(cfg, opening);
    Meets(cfg, level, g);
    SendAfter(cfg, opening, [[POSITION_X]], KNOCKED_OUT, IntValue(1), 0);
    var full := [[POSITION_X]] + [[KNOCKED_OUT]];
    FaintedAfter(cfg, opening);
    OneRecord(KNOCKED_OUT, IntValue(1));
    Delivered(cfg, opening, OBSERVER, SENDER, FAINT, 0, NOTHING, 0, KNOCKED_OUT);
    ObserverTurn(cfg, opening + [faint], full);
    IsRevived(Run(cfg, Mourning(level, g)).st.clients[SENDER]);
    MissingEmptyIff(full, 0);
    NothingAfterNewest(full, KNOCKED_OUT);
  }

  lemma FaintedAfter(cfg: Config, events: seq<Event>)
    requires Well(Run(cfg, events))
    ensures var w := Run(cfg, events + [UpdateEvent(SENDER, FAINT, 0)]);
            SENDER in w.st.clients && var c := w.st.clients[SENDER];
            c.vars[KNOCKED_OUT] == IntValue(1) && c.deathChanged && c.timeOfDeath == 0
  {
    hide Run, Next, Healthy, One, PairOk, PlayerOk, Refreshed, SENDER;
    RunInvariant(cfg, events);
    OneAfter(cfg, events, UpdateEvent(SENDER, FAINT, 0));
    OwnTurn(cfg, Run(cfg, events), SENDER, FAINT, 0);
    Faints(Run(cfg, events).st.clients[SENDER]);
  }
}
