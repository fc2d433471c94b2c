/** The theorems about replication in whole runs: what agrees, and on which schedules. */
module Schedules {
  import opened Wire
  import opened History
  import opened Clients
  import opened Server
  import opened Registry
  import opened Replication

  /** o and s are peers, and no third player on their level goes by the wire name of s. */
  ghost predicate Distinguished(w: World, o: Bytes, s: Bytes)
  {
    IsPeer(w.st.clients, o, s) && Unambiguous(w.st.clients, o, s)
  }

  /** What o should by now have right about s: t was touched after o's baseline and not since o's key,
      was not revived since it was last sent, and no message that should have named it failed to. */
  ghost predicate Due(w: World, o: Bytes, s: Bytes, t: Byte)
  {
    && Distinguished(w, o, s) && Carried(t) && w.links(o, s).Some?
    && var l := w.links(o, s).value;
    && Touched(w.full(s), l.base + 1, l.pos + 1, t)
    && !Touched(w.full(s), l.pos + 1, |w.full(s)|, t)
    && t !in l.revived + l.lost
  }

  /** In the replica parsed from the bytes o's connection was sent, t has the value it has at s. */
  ghost predicate Current(w: World, o: Bytes, s: Bytes, t: Byte)
  {
    && s in w.st.clients && t in w.st.clients[s].vars
    && var replica := Replica(w.sent(o), CStr(s));
    && t in replica && replica[t] == w.st.clients[s].vars[t]
  }

  /** Replica agreement, for every run and whatever the lags in it. */
  lemma {:induction false} ReplicaAgreement(cfg: Config, events: seq<Event>, o: Bytes, s: Bytes, t: Byte)
    ensures Due(Run(cfg, events), o, s, t) ==> Current(Run(cfg, events), o, s, t)
  {
    hide Run, Touched, WellFormed, PlayerOk, Linked, Replica, Unambiguous;
    RunInvariant(cfg, events);
    if Due(Run(cfg, events), o, s, t) {
      assert PairOk(Run(cfg, events), o, s);
    }
  }

  /** With a lag of at most nine at each of o's turns nothing is lost. */
  lemma {:induction false} TimelyAgreement(cfg: Config, events: seq<Event>, o: Bytes, s: Bytes, t: Byte)
    ensures var w := Run(cfg, events);
            Distinguished(w, o, s) && Carried(t) && w.links(o, s).Some? && w.links(o, s).value.timely &&
            Touched(w.full(s), w.links(o, s).value.base + 1, w.links(o, s).value.pos + 1, t) &&
            !Touched(w.full(s), w.links(o, s).value.pos + 1, |w.full(s)|, t) && t !in w.links(o, s).value.revived ==>
              Current(w, o, s, t)
  {
    hide Run, Touched, WellFormed, PlayerOk, Linked, Replica, Unambiguous, Agrees, Current, Carried;
    RunInvariant(cfg, events);
    ReplicaAgreement(cfg, events, o, s, t);
    if Distinguished(Run(cfg, events), o, s) {
      assert PairOk(Run(cfg, events), o, s);
    }
  }

  /** The lag after one more event. */
  function LagAfter(st: State, e: Event, o: Bytes, s: Bytes, lag: nat): nat
  {
    if !e.UpdateEvent? || e.who !in st.clients then lag
    else if e.who == o then 0
    else if e.who == s && Records(PeerGrammar, e.packet, 1) != [] then 1 + lag
    else lag
  }

  /** How many non-empty updates s made since o's latest update. */
  function Since(cfg: Config, events: seq<Event>, o: Bytes, s: Bytes): nat
  {
    if events == [] then 0
    else
      var before := events[..|events| - 1];
      LagAfter(Run(cfg, before).st, events[|events| - 1], o, s, Since(cfg, before, o, s))
  }

  /** Once o has met s, at most nine non-empty updates of s between consecutive updates of o. */
  ghost predicate Steady(cfg: Config, events: seq<Event>, o: Bytes, s: Bytes)
  {
    forall n :: 0 <= n <= |events| ==> KeepsUp(cfg, events[..n], o, s)
  }

  ghost predicate KeepsUp(cfg: Config, events: seq<Event>, o: Bytes, s: Bytes)
  {
    Run(cfg, events).links(o, s).Some? ==> Since(cfg, events, o, s) <= 9
  }

  lemma SteadyPrefix(cfg: Config, events: seq<Event>, o: Bytes, s: Bytes)
    requires events != [] && Steady(cfg, events, o, s)
    ensures Steady(cfg, events[..|events| - 1], o, s) && KeepsUp(cfg, events[..|events| - 1], o, s)
  {
    hide KeepsUp;
    var before := events[..|events| - 1];
    forall n | 0 <= n <= |before|
      ensures KeepsUp(cfg, before[..n], o, s)
    {
      assert before[..n] == events[..n];
    }
    assert before == before[..|before|];
  }

  /** A link whose position trails the sender by exactly `lag` updates. */
  ghost predicate Trails(w: World, o: Bytes, s: Bytes, lag: nat)
  {
    w.links(o, s).Some? ==> w.links(o, s).value.timely && w.links(o, s).value.pos == |w.full(s)| - 1 - lag
  }

  /** On a steady schedule the link is always timely, and its lag is the number of updates s made
      since o's latest one; in particular it is zero right after each update of o. */
  lemma {:induction false} SteadyTrails(cfg: Config, events: seq<Event>, o: Bytes, s: Bytes)
    requires Steady(cfg, events, o, s)
    ensures IsPeer(Run(cfg, events).st.clients, o, s) ==> Trails(Run(cfg, events), o, s, Since(cfg, events, o, s))
    decreases |events|
  {
    hide Next, Trails, Records, React, Steady, Invariant, IsPeer;
    if events == [] {
      StartEmpty(o, s);
    } else {
      var before, e := events[..|events| - 1], events[|events| - 1];
      var w := Run(cfg, before);
      SteadyPrefix(cfg, events, o, s);
      RunInvariant(cfg, before);
      SteadyTrails(cfg, before, o, s);
      if IsPeer(w.st.clients, o, s) {
        NextTrails(cfg, w, e, o, s, Since(cfg, before, o, s));
      } else {
        NewPeersTrail(cfg, w, e, o, s, Since(cfg, events, o, s));
      }
    }
  }

  lemma NewPeersTrail(cfg: Config, w: World, e: Event, o: Bytes, s: Bytes, lag: nat)
    requires Invariant(w) && !IsPeer(w.st.clients, o, s)
    ensures OrderCovered(w.st) && (IsPeer(Next(cfg, w, e).st.clients, o, s) ==> Trails(Next(cfg, w, e), o, s, lag))
  {
    hide Next, IsPeer, PairOk, PlayerOk, Sorted, Entered;
    NewPeersUnlinked(cfg, w, e, o, s);
  }

  lemma StartEmpty(o: Bytes, s: Bytes)
    ensures !IsPeer(START.st.clients, o, s)
  {
  }

  /** Two players become peers only when one of them signs on. */
  lemma NewPeersUnlinked(cfg: Config, w: World, e: Event, o: Bytes, s: Bytes)
    requires Invariant(w) && !IsPeer(w.st.clients, o, s)
    ensures OrderCovered(w.st)
    ensures IsPeer(Next(cfg, w, e).st.clients, o, s) ==> Next(cfg, w, e).links(o, s).None?
  {
    hide Next, React, PairOk, PlayerOk, Sorted, Entered, Settled, Sync, Peers, Refreshed, SignOn, Refusal,
      ReadApplication, Mail, Answered;
    NextRegistry(cfg, w, e);
    match e
    case SignOnEvent(p, g) =>
      if Refusal(cfg, w.st, ReadApplication(p)).Some? {
        RefusedUnfolded(cfg, w, p, g);
      } else {
        SignOnUnfolded(cfg, w, p, g);
      }
    case UpdateEvent(me, p, now) =>
      if me in w.st.clients {
        UpdateUnfolded(cfg, w, me, p, now);
      } else {
        IdleUpdate(cfg, w, me, p, now);
      }
    case DisconnectEvent =>
      DisconnectUnfolded(cfg, w);
    case ChatEvent(_, _) =>
      MinorUnfolded(cfg, w, e);
    case QueryEvent(_, _) =>
      MinorUnfolded(cfg, w, e);
    case OutsideEvent(_, _, _) =>
      MinorUnfolded(cfg, w, e);
  }

  lemma NextTrails(cfg: Config, w: World, e: Event, o: Bytes, s: Bytes, lag: nat)
    requires Invariant(w) && IsPeer(w.st.clients, o, s) && Trails(w, o, s, lag)
    requires w.links(o, s).Some? ==> lag <= 9
    ensures OrderCovered(w.st) && Trails(Next(cfg, w, e), o, s, LagAfter(w.st, e, o, s, lag))
  {
    hide Next, PairOk, Records, Observed, Window, Sorted, Entered, Refreshed, Settled, Sync, Peers, Linked, Quiet,
      SignOn, Refusal, ReadApplication, RevivedVars, FateAt, Mail, Answered;
    match e
    case SignOnEvent(p, g) =>
      if Refusal(cfg, w.st, ReadApplication(p)).Some? {
        RefusedUnfolded(cfg, w, p, g);
      } else {
        SignOnUnfolded(cfg, w, p, g);
      }
    case DisconnectEvent =>
      DisconnectUnfolded(cfg, w);
    case ChatEvent(_, _) =>
      MinorUnfolded(cfg, w, e);
    case QueryEvent(_, _) =>
      MinorUnfolded(cfg, w, e);
    case OutsideEvent(_, _, _) =>
      MinorUnfolded(cfg, w, e);
    case UpdateEvent(me, p, now) =>
      if me !in w.st.clients {
        IdleUpdate(cfg, w, me, p, now);
      } else {
        UpdateUnfolded(cfg, w, me, p, now);
        if me == o {
          assert PlayerOk(w, s) && PairOk(w, o, s);
          LinkInRange(w, o, s);
          ObservedTrails(w.links(o, s), w.full(s), lag);
        }
      }
  }

  lemma LinkInRange(w: World, o: Bytes, s: Bytes)
    requires o in w.st.clients && s in w.st.clients && PairOk(w, o, s)
    ensures w.links(o, s).Some? ==> w.links(o, s).value.pos < |w.full(s)|
  {
    hide Agrees, Unambiguous, Replica;
  }

  /** One turn of the peer loop brings a lag of at most nine down to zero. */
  lemma ObservedTrails(link: Option<Link>, full: seq<seq<Byte>>, lag: nat)
    requires forall i :: 0 <= i < |full| ==> full[i] != []
    requires link.Some? ==> link.value.timely && link.value.pos == |full| - 1 - lag && lag <= 9
    requires link.Some? ==> link.value.pos < |full|
    ensures var after := Observed(link, full);
            after.Some? ==> after.value.timely && after.value.pos == |full| - 1
  {
    hide Window, Missing;
    if link.Some? {
      MissingEmptyIff(full, link.value.pos);
    }
  }

  /** Nothing is lost on a steady schedule: once o has met s, right after each update of o every
      variable s sent since then, and did not rewrite by a revive since it was last sent, is
      exactly current in o's replica. */
  lemma {:induction false} SteadyReplication(cfg: Config, events: seq<Event>, o: Bytes, s: Bytes, t: Byte)
    requires Steady(cfg, events, o, s) && Since(cfg, events, o, s) == 0
    ensures var w := Run(cfg, events);
            Distinguished(w, o, s) && Carried(t) && w.links(o, s).Some? &&
            Touched(w.full(s), w.links(o, s).value.base + 1, |w.full(s)|, t) && t !in w.links(o, s).value.revived ==>
              Current(w, o, s, t)
  {
    hide Run, Steady, Since, Replica, Unambiguous, Carried, IsPeer, Current;
    SteadyTrails(cfg, events, o, s);
    TimelyAgreement(cfg, events, o, s, t);
  }

  lemma RunTwice(cfg: Config, events: seq<Event>, e1: Event, e2: Event)
    requires Invariant(Run(cfg, events)) && Invariant(Next(cfg, Run(cfg, events), e1))
    ensures Run(cfg, events + [e1, e2]) == Next(cfg, Next(cfg, Run(cfg, events), e1), e2)
  {
    hide Next, Invariant;
    var all := events + [e1, e2];
    assert all[..|all| - 1] == events + [e1];
    assert (events + [e1])[..|events|] == events;
  }

  /** After the sender's turn the variable is pending for o, whose key stands as before. */
  lemma SentOnce(cfg: Config, w: World, o: Bytes, s: Bytes, p: Packet, now: int, t: Byte)
    requires Invariant(w) && IsPeer(w.st.clients, o, s)
    requires t in Tags(Records(PeerGrammar, p, 1))
    ensures OrderCovered(w.st)
    ensures var w1 := Next(cfg, w, UpdateEvent(s, p, now));
            && IsPeer(w1.st.clients, o, s) && (Distinguished(w, o, s) ==> Distinguished(w1, o, s))
            && |w1.full(s)| == |w.full(s)| + 1 && t in w1.full(s)[|w.full(s)|]
            && (w1.links(o, s).Some? <==> w.links(o, s).Some?)
            && (w.links(o, s).Some? ==>
                  w1.links(o, s).value.pos == w.links(o, s).value.pos && w.links(o, s).value.pos < |w.full(s)|)
  {
    hide Next, React, Records, PairOk, PlayerOk, Sorted, Entered, Settled, Sync, Peers, Refreshed, FateAt, CStr,
      Unambiguous;
    var e := UpdateEvent(s, p, now);
    var w1 := Next(cfg, w, e);
    UpdateUnfolded(cfg, w, s, p, now);
    SettledEffect(w.st.clients, s, p, now);
    NextRegistry(cfg, w, e);
    assert PairOk(w, o, s);
    LinkInRange(w, o, s);
    if Distinguished(w, o, s) {
      StillDistinguished(w, w1, o, s);
    }
  }

  lemma StillDistinguished(w: World, w': World, o: Bytes, s: Bytes)
    requires Distinguished(w, o, s) && w'.st.clients.Keys == w.st.clients.Keys
    requires forall n :: n in w.st.clients ==> n in w'.st.clients && SameIdentity(w.st.clients[n], w'.st.clients[n])
    ensures Distinguished(w', o, s)
  {
    hide CStr;
    forall n | n != s && IsPeer(w'.st.clients, o, n)
      ensures CStr(n) != CStr(s)
    {
      assert n in w'.st.clients.Keys;
      assert IsPeer(w.st.clients, o, n);
    }
  }
}
