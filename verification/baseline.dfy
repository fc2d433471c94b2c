/** Which variables a player has heard of, no more and no less: what its peers sent between the update
    at which it met them and the update its key names. Nothing sent before that is ever caught up on. */
module Baseline {
  import opened Wire
  import opened History
  import opened Clients
  import opened Server
  import opened Registry
  import opened Replication
  import opened Schedules
  import opened Visibility

  /** s sent t after the update at which o met it, and not after the update that o's key names. */
  ghost predicate Reported(w: World, o: Bytes, s: Bytes, t: Byte)
  {
    && IsPeer(w.st.clients, o, s) && w.links(o, s).Some?
    && Touched(w.full(s), w.links(o, s).value.base + 1, w.links(o, s).value.pos + 1, t)
  }

  /** o's lag was at most nine at each of its updates since it met s, if it has. */
  ghost predicate OnTime(w: World, o: Bytes, s: Bytes)
  {
    IsPeer(w.st.clients, o, s) && w.links(o, s).Some? ==> w.links(o, s).value.timely
  }

  ghost predicate Heard(w: World, o: Bytes, s: Bytes, t: Byte)
  {
    o in w.st.clients && Unambiguous(w.st.clients, o, s) && OnTime(w, o, s) ==>
      (t in Replica(w.sent(o), CStr(s)) <==> Reported(w, o, s, t))
  }

  // ---------------------------------------------------------------- one turn

  /** One turn of the peer loop at a lag of at most nine adds exactly what was pending. */
  lemma TurnReports(keys: map<Bytes, int>, peer: Session, full: seq<seq<Byte>>, link: Option<Link>,
                    replica: map<Byte, Value>, t: Byte)
    requires Recorded(peer, full) && StrLen(peer.username) <= 127 && Carried(t)
    requires Linked(keys, peer.username, full, link)
    requires t in replica <==> link.Some? && Touched(full, link.value.base + 1, link.value.pos + 1, t)
    requires var after := Observed(link, full); after.Some? ==> after.value.timely
    ensures var after := Observed(link, full);
            t in Learns(replica, SyncOne(keys, peer).1, CStr(peer.username)) <==>
              after.Some? && Touched(full, after.value.base + 1, after.value.pos + 1, t)
  {
    var out := SyncOne(keys, peer).1;
    if link.None? {
      FirstContact(keys, peer, full, replica);
    } else {
      var l := link.value;
      var types := Missing(Window(full), l.pos % KEYS);
      hide Missing, Window, UpdateMessage, Learn, CStr, StrLen, Merge, RecordsFor, Touched, Carried;
      MissingEmptyIff(full, l.pos);
      MissingIsTouched(full, l.pos, t);
      SplitTouched(full, l.base + 1, l.pos + 1, |full|, t);
      if types != [] {
        assert out == [UpdateMessage(peer, types)];
        LearnsOne(replica, UpdateMessage(peer, types), CStr(peer.username));
        LearnUpdate(replica, peer, types, CStr(peer.username));
        MergeRecordsFor(replica, peer.vars, types, t);
      }
    }
  }

  /** Messages about peers of other names say nothing about s. */
  lemma NoTurnNoNews(clients: map<Bytes, Session>, order: seq<Bytes>, me: Bytes, s: Bytes,
                     sent: seq<Bytes>, quiet: seq<Bytes>)
    requires WellFormed(State(clients, order)) && me in clients
    requires !IsPeer(clients, me, s) && Unambiguous(clients, me, s)
    requires forall m :: m in quiet ==> Quiet(m)
    ensures Replica(sent + (quiet + Sync(clients, Peers(clients, order, me), clients[me].keys).1), CStr(s)) ==
            Replica(sent, CStr(s))
  {
    hide Learn, Peers, Sync, Quiet, CStr, StrLen, Sorted, Entered, Learns;
    var names, name := Peers(clients, order, me), CStr(s);
    SortedDistinct(order);
    PeersDistinct(clients, order, me);
    var updates := Sync(clients, names, clients[me].keys).1;
    LearnsConcat(map[], sent, quiet + updates, name);
    LearnsConcat(Replica(sent, name), quiet, updates, name);
    LearnsQuiet(Replica(sent, name), quiet, name);
    forall n | n in names
      ensures n in clients && clients[n].username == n && StrLen(n) <= 127 && n != s && CStr(n) != name
    {
      NameFits(State(clients, order), n);
      assert IsPeer(clients, me, n);
    }
    SyncLearns(clients, names, clients[me].keys, s, Replica(sent, name));
  }

  lemma OwnTurnHeard(cfg: Config, w: World, o: Bytes, p: Packet, now: int, s: Bytes, t: Byte)
    requires Invariant(w) && o in w.st.clients && Carried(t) && Heard(w, o, s, t)
    ensures OrderCovered(w.st) && Heard(Next(cfg, w, UpdateEvent(o, p, now)), o, s, t)
  {
    hide Next, React, SyncOne, Sorted, Entered, Quiet, Observed, CStr, StrLen, Learns, Linked, EqualAt, Unambiguous,
      Touched, Carried, Recorded, Agrees, Peers;
    NextRegistry(cfg, w, UpdateEvent(o, p, now));
    var w' := Next(cfg, w, UpdateEvent(o, p, now));
    if Unambiguous(w'.st.clients, o, s) && OnTime(w', o, s) {
      UnambiguousShrinks(w.st.clients, w'.st.clients, o, s);
      if IsPeer(w.st.clients, o, s) {
        assert PlayerOk(w, s) && PairOk(w, o, s);
        NameFits(w.st, s);
        ObserverUnfolded(cfg, w, o, p, now, s);
        ObservedTimely(w.links(o, s), w.full(s));
        ObservedSome(w.links(o, s), w.full(s));
        TurnReports(w.st.clients[o].keys, w.st.clients[s], w.full(s), w.links(o, s), Replica(w.sent(o), CStr(s)), t);
      } else {
        StrangersTurn(cfg, w, o, p, now, s);
      }
    }
  }

  lemma ObservedSome(link: Option<Link>, full: seq<seq<Byte>>)
    ensures link.Some? ==> Observed(link, full).Some?
  {
  }

  lemma StrangersTurn(cfg: Config, w: World, o: Bytes, p: Packet, now: int, s: Bytes)
    requires Invariant(w) && o in w.st.clients && !IsPeer(w.st.clients, o, s) && Unambiguous(w.st.clients, o, s)
    ensures OrderCovered(w.st)
    ensures var w' := Next(cfg, w, UpdateEvent(o, p, now));
            && !IsPeer(w'.st.clients, o, s)
            && Replica(w'.sent(o), CStr(s)) == Replica(w.sent(o), CStr(s))
  {
    hide Next, React, Settled, Refreshed, Peers, Sync, Sorted, Entered, Quiet, Learns, CStr, StrLen, FullAfter, PairOk,
      Unambiguous, FateAt, Records, Carried;
    var settled := Settled(w.st.clients, o, p, now);
    NextRegistry(cfg, w, UpdateEvent(o, p, now));
    UpdateUnfolded(cfg, w, o, p, now);
    SettledEffect(w.st.clients, o, p, now);
    SettledWellFormed(w.st, o, p, now);
    assert PlayerOk(w, o);
    SenderWrites(w.st.clients[o], w.full(o), p, now);
    assert IsPeer(settled, o, s) <==> IsPeer(w.st.clients, o, s);
    SettledUnambiguous(w.st.clients, settled, o, s);
    NoTurnNoNews(settled, w.st.order, o, s, w.sent(o), Refreshed(w.st.clients[o], p, now).1);
  }

  lemma SettledUnambiguous(a: map<Bytes, Session>, b: map<Bytes, Session>, o: Bytes, s: Bytes)
    requires a.Keys == b.Keys && o in a && forall n :: n in a ==> SameIdentity(a[n], b[n])
    requires Unambiguous(a, o, s)
    ensures Unambiguous(b, o, s)
  {
    assert forall n :: n in b ==> n in a.Keys;
    UnambiguousShrinks(b, a, o, s);
  }

  // ---------------------------------------------------------------- every step

  /** Nothing that o's knowledge of s is judged by has changed, but that s may have sent more. */
  lemma HeardKept(w: World, w': World, o: Bytes, s: Bytes, t: Byte)
    requires Heard(w, o, s, t) && o in w.st.clients
    requires Replica(w'.sent(o), CStr(s)) == Replica(w.sent(o), CStr(s))
    requires forall n :: n in w.st.clients ==> n in w'.st.clients && SameIdentity(w.st.clients[n], w'.st.clients[n])
    requires IsPeer(w.st.clients, o, s) && w.links(o, s).Some? ==>
               && w'.links(o, s).Some?
               && var l, l' := w.links(o, s).value, w'.links(o, s).value;
               && l'.base == l.base && l'.pos == l.pos && l'.timely == l.timely
               && (Touched(w'.full(s), l.base + 1, l.pos + 1, t) <==> Touched(w.full(s), l.base + 1, l.pos + 1, t))
    requires !(IsPeer(w.st.clients, o, s) && w.links(o, s).Some?) ==>
               !(IsPeer(w'.st.clients, o, s) && w'.links(o, s).Some?)
    ensures Heard(w', o, s, t)
  {
    hide Replica, CStr, Touched, Unambiguous;
    if Unambiguous(w'.st.clients, o, s) {
      UnambiguousShrinks(w.st.clients, w'.st.clients, o, s);
    }
  }

  lemma SignOnHeard(cfg: Config, w: World, p: Packet, g: Garbage, o: Bytes, s: Bytes, t: Byte)
    requires Invariant(w) && o in w.st.clients && Heard(w, o, s, t)
    ensures OrderCovered(w.st) && Heard(Next(cfg, w, SignOnEvent(p, g)), o, s, t)
  {
    hide Next, React, PairOk, PlayerOk, Sorted, Entered, SignOn, Refusal, ReadApplication, Heard, Unambiguous, Touched,
      Recorded;
    if Refusal(cfg, w.st, ReadApplication(p)).Some? {
      RefusedUnfolded(cfg, w, p, g);
    } else {
      SignOnUnfolded(cfg, w, p, g);
      HeardKept(w, Next(cfg, w, SignOnEvent(p, g)), o, s, t);
    }
  }

  lemma OthersTurnHeard(cfg: Config, w: World, me: Bytes, p: Packet, now: int, o: Bytes, s: Bytes, t: Byte)
    requires Invariant(w) && o in w.st.clients && me in w.st.clients && me != o && Heard(w, o, s, t)
    ensures OrderCovered(w.st) && Heard(Next(cfg, w, UpdateEvent(me, p, now)), o, s, t)
  {
    hide Next, React, PairOk, PlayerOk, Sorted, Entered, Settled, Sync, Peers, Refreshed, Heard, Touched, FateAt,
      Observed, RevivedVars, Unambiguous, FullAfter;
    UpdateUnfolded(cfg, w, me, p, now);
    NextRegistry(cfg, w, UpdateEvent(me, p, now));
    SettledEffect(w.st.clients, me, p, now);
    if IsPeer(w.st.clients, o, s) && w.links(o, s).Some? {
      assert PairOk(w, o, s);
      LinkInRange(w, o, s);
      StillReported(w.full(s), p, w.links(o, s).value, t);
    }
    HeardKept(w, Next(cfg, w, UpdateEvent(me, p, now)), o, s, t);
  }

  lemma MinorHeard(cfg: Config, w: World, e: Event, o: Bytes, s: Bytes, t: Byte)
    requires Invariant(w) && o in w.st.clients && Minor(e) && Heard(w, o, s, t)
    ensures OrderCovered(w.st) && Heard(Next(cfg, w, e), o, s, t)
  {
    hide Next, React, PairOk, PlayerOk, Sorted, Entered, Heard, Touched, Unambiguous, Minor, Mail, Answered, Replica,
      CStr;
    MinorUnfolded(cfg, w, e);
    MinorQuiet(cfg, w, e, o);
    assert forall n :: n in w.st.clients ==> n in Next(cfg, w, e).st.clients.Keys;
    HeardKept(w, Next(cfg, w, e), o, s, t);
  }

  lemma NextHeard(cfg: Config, w: World, e: Event, o: Bytes, s: Bytes, t: Byte)
    requires Invariant(w) && o in w.st.clients && Carried(t) && Heard(w, o, s, t)
    ensures OrderCovered(w.st) && Heard(Next(cfg, w, e), o, s, t)
  {
    hide Next, Heard, Carried, PairOk, PlayerOk, Sorted, Entered;
    match e
    case SignOnEvent(p, g) =>
      SignOnHeard(cfg, w, p, g, o, s, t);
    case DisconnectEvent =>
      DisconnectUnfolded(cfg, w);
      NobodyHeard(w.(st := EMPTY), o, s, t);
    case ChatEvent(_, _) =>
      MinorHeard(cfg, w, e, o, s, t);
    case QueryEvent(_, _) =>
      MinorHeard(cfg, w, e, o, s, t);
    case OutsideEvent(_, _, _) =>
      MinorHeard(cfg, w, e, o, s, t);
    case UpdateEvent(me, p, now) =>
      if me !in w.st.clients {
        IdleUpdate(cfg, w, me, p, now);
      } else if me == o {
        OwnTurnHeard(cfg, w, o, p, now, s, t);
      } else {
        OthersTurnHeard(cfg, w, me, p, now, o, s, t);
      }
  }

  lemma StillReported(full: seq<seq<Byte>>, p: Packet, l: Link, t: Byte)
    requires l.pos < |full|
    ensures Touched(FullAfter(full, p), l.base + 1, l.pos + 1, t) <==> Touched(full, l.base + 1, l.pos + 1, t)
  {
    hide Touched, Records;
    var rs := Records(PeerGrammar, p, 1);
    if rs != [] {
      TouchedAppend(full, Tags(rs), l.base + 1, l.pos + 1, t);
    }
  }

  /** A newcomer has heard of nothing. */
  lemma NewcomerHeard(cfg: Config, w: World, e: Event, o: Bytes, s: Bytes, t: Byte)
    requires Invariant(w) && o !in w.st.clients
    ensures OrderCovered(w.st) && Heard(Next(cfg, w, e), o, s, t)
  {
    hide Next, React, PairOk, PlayerOk, Sorted, Entered, ReadApplication, Refusal, Settled, Sync, Peers, Refreshed,
      Learns, Admitted, SpawnMessages, WelcomeMessage, Quiet, Touched, Unambiguous, Mail, Answered;
    match e
    case SignOnEvent(p, g) =>
      if Refusal(cfg, w.st, ReadApplication(p)).Some? {
        RefusedUnfolded(cfg, w, p, g);
      } else {
        SignOnUnfolded(cfg, w, p, g);
        SignOnReplies(cfg, w, p, g);
        var c := Admitted(cfg, ReadApplication(p), g);
        var joined := Registered(w.st, c);
        WelcomeQuiet(cfg, c);
        SpawnsQuiet(joined.clients, Peers(joined.clients, joined.order, c.username));
        LearnsQuiet(map[], Next(cfg, w, e).sent(c.username), CStr(s));
      }
    case UpdateEvent(me, p, now) =>
      if me in w.st.clients {
        UpdateUnfolded(cfg, w, me, p, now);
      } else {
        IdleUpdate(cfg, w, me, p, now);
      }
    case DisconnectEvent =>
      DisconnectUnfolded(cfg, w);
    case ChatEvent(_, _) =>
      MinorUnfolded(cfg, w, e);
    case QueryEvent(_, _) =>
      MinorUnfolded(cfg, w, e);
    case OutsideEvent(_, _, _) =>
      MinorUnfolded(cfg, w, e);
  }

  lemma WelcomeQuiet(cfg: Config, c: Session)
    ensures Quiet(WelcomeMessage(cfg, c))
  {
    hide EncodeString, EmitValue;
  }

  lemma SpawnsQuiet(clients: map<Bytes, Session>, names: seq<Bytes>)
    requires forall n :: n in names ==> n in clients
    ensures forall m :: m in SpawnMessages(clients, names) ==> Quiet(m)
  {
    hide SpawnMessage, Quiet;
    forall i | 0 <= i < |names|
      ensures Quiet(SpawnMessages(clients, names)[i])
    {
      SpawnQuiet(clients[names[i]], clients[names[i]].username);
    }
  }

  // ---------------------------------------------------------------- whole runs

  lemma NobodyHeard(w: World, o: Bytes, s: Bytes, t: Byte)
    requires w.st == EMPTY
    ensures Heard(w, o, s, t)
  {
  }

  /** In every run in which o was never more than nine updates behind s, and no third player of the
      level has the wire name of s, o's replica of s holds exactly the variables s sent after the
      update at which o met it, up to the update that o's key names; before they met, it is empty. */
  lemma {:induction false} ReplicaDomain(cfg: Config, events: seq<Event>, o: Bytes, s: Bytes, t: Byte)
    requires Carried(t)
    ensures Heard(Run(cfg, events), o, s, t)
  {
    hide Next, Heard, React, Invariant, Carried;
    if events == [] {
      NobodyHeard(START, o, s, t);
    } else {
      var before, e := events[..|events| - 1], events[|events| - 1];
      RunInvariant(cfg, before);
      ReplicaDomain(cfg, before, o, s, t);
      if o in Run(cfg, before).st.clients {
        NextHeard(cfg, Run(cfg, before), e, o, s, t);
      } else {
        NewcomerHeard(cfg, Run(cfg, before), e, o, s, t);
      }
    }
  }
}
