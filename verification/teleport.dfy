/** The saved position, over whole runs: where a player is put back to. */
module Teleport {
  import opened Wire
  import opened Clients
  import opened Server
  import opened Registry
  import opened Replication
  import opened Messages
  import opened Admission
  import opened Queries

  /** A request of n to save its position (type 7), on a server that allows it. */
  predicate Saves(cfg: Config, e: Event, n: Bytes)
  {
    cfg.allowTeleport && e.QueryEvent? && e.who == n && e.packet.At(0) == 7
  }

  /** Where n was when it last saved its position, or where it signed on. */
  function Parked(cfg: Config, events: seq<Event>, n: Bytes): Spot
  {
    if events == [] then Spot(ZERO, ZERO, ZERO)
    else
      var before, e := events[..|events| - 1], events[|events| - 1];
      var clients := Run(cfg, before).st.clients;
      if n in clients then
        if Saves(cfg, e, n) then Spot(clients[n].vars[19], clients[n].vars[20], clients[n].vars[21])
        else Parked(cfg, before, n)
      else if e.SignOnEvent? then
        var a := ReadApplication(e.packet);
        Spot(FloatValue(a.posx), FloatValue(a.posy), FloatValue(a.posz))
      else Spot(ZERO, ZERO, ZERO)
  }

  // ---------------------------------------------------------------- one step

  lemma SignOnKeepsSaved(cfg: Config, st: State, p: Packet, g: Garbage, n: Bytes)
    requires WellFormed(st) && n in st.clients
    ensures n in SignOn(cfg, st, p, g).st.clients && SignOn(cfg, st, p, g).st.clients[n].saved == st.clients[n].saved
  {
    hide ReadApplication, Refusal, Admitted, WelcomeMessage, SpawnMessages, Peers, InsertKey, Sorted, Entered, SignOn,
      Introduced;
    if Refusal(cfg, st, ReadApplication(p)).Some? {
      SignOnRefused(cfg, st, p, g);
    } else {
      SignOnAdmits(cfg, st, p, g);
      AdmittedEntered(cfg, st, p, g);
      AdmittedName(cfg, ReadApplication(p), g);
      assert Entered(st.clients[n], n);
      NamedByKey(st.clients[n], n);
      var c := Admitted(cfg, ReadApplication(p), g);
      IntroducedKeepsSaved(Registered(st, c).clients, c, n);
    }
  }

  lemma NamedByKey(c: Session, n: Bytes)
    requires Entered(c, n)
    ensures c.username == n
  {
  }

  lemma IntroducedKeepsSaved(clients: map<Bytes, Session>, c: Session, n: Bytes)
    requires c.username in clients && n in clients
    ensures n in Introduced(clients, c) && Introduced(clients, c)[n].saved == clients[n].saved
  {
    hide EnteredNotice, SpawnMessage;
  }

  lemma UpdateKeepsSaved(st: State, me: Bytes, p: Packet, now: int, n: Bytes)
    requires OrderCovered(st) && me in st.clients && n in st.clients
    ensures n in Update(st, me, p, now).st.clients && Update(st, me, p, now).st.clients[n].saved == st.clients[n].saved
  {
    hide Refreshed, Sync, Peers, FateAt, DiedNotice;
    RefreshedKeepsSaved(st.clients[me], p, now);
  }

  lemma RefreshedKeepsSaved(c: Session, p: Packet, now: int)
    ensures Refreshed(c, p, now).0.saved == c.saved
  {
    hide StoreAll, Assigned, Dead, Records, SelfMessage, NoticeMessage, REVIVE;
  }

  lemma ChatKeepsSaved(st: State, me: Bytes, p: Packet, n: Bytes)
    requires me in st.clients && n in st.clients
    ensures n in Chat(st, me, p).clients && Chat(st, me, p).clients[n].saved == st.clients[n].saved
  {
    hide ChatMessage, ReadString, AfterString;
  }

  lemma OutsideKeepsSaved(st: State, c: Session, p: Packet, now: int, n: Bytes)
    requires OrderCovered(st) && n in st.clients
    ensures var after := OutsideState(st, c, p, now);
            n in after.clients && after.clients[n].saved == st.clients[n].saved
  {
    hide ChatMessage, ReadString, AfterString, Refreshed, FateAt, Sync, PeersOf, DiedNotice;
  }

  lemma QuerySaves(cfg: Config, st: State, who: Bytes, p: Packet, n: Bytes)
    requires OrderCovered(st) && who in st.clients && n in st.clients
    ensures var after := Query(cfg, st, who, p).st.clients;
            && n in after
            && after[n].saved ==
               if Saves(cfg, QueryEvent(who, p), n) then
                  Spot(st.clients[n].vars[19], st.clients[n].vars[20], st.clients[n].vars[21])
               else st.clients[n].saved
  {
    hide Answers;
  }

  lemma StepSaves(cfg: Config, st: State, e: Event, n: Bytes)
    requires WellFormed(st) && n in st.clients && !e.DisconnectEvent?
    ensures var after := React(cfg, st, e).st.clients;
            && n in after
            && after[n].saved ==
               if Saves(cfg, e, n) then
                  Spot(st.clients[n].vars[19], st.clients[n].vars[20], st.clients[n].vars[21])
               else st.clients[n].saved
  {
    hide SignOn, Update, Chat, OutsideState, Query, Sorted, Entered;
    match e
    case SignOnEvent(p, g) =>
      SignOnKeepsSaved(cfg, st, p, g, n);
    case UpdateEvent(me, p, now) =>
      if me in st.clients {
        UpdateKeepsSaved(st, me, p, now, n);
      }
    case ChatEvent(me, p) =>
      if me in st.clients {
        ChatKeepsSaved(st, me, p, n);
      }
    case QueryEvent(who, p) =>
      if who in st.clients {
        QuerySaves(cfg, st, who, p, n);
      }
    case OutsideEvent(c, p, now) =>
      OutsideKeepsSaved(st, c, p, now, n);
  }

  // ---------------------------------------------------------------- whole runs

  /** In every run a player's saved position is where it last saved, or where it signed on. */
  lemma {:induction false} SavedIsParked(cfg: Config, events: seq<Event>, n: Bytes)
    ensures n in Run(cfg, events).st.clients ==> Run(cfg, events).st.clients[n].saved == Parked(cfg, events, n)
  {
    hide Next, React, Invariant, WellFormed;
    if events == [] {
      NobodyAtStart(n);
    } else {
      var before, e := events[..|events| - 1], events[|events| - 1];
      var w := Run(cfg, before);
      SavedIsParked(cfg, before, n);
      RegistryInvariant(cfg, before);
      NextRegistry(cfg, w, e);
      if e.DisconnectEvent? {
        DisconnectUnfolded(cfg, w);
      } else if n in w.st.clients {
        StepSaves(cfg, w.st, e, n);
      } else {
        NewcomerParked(cfg, w, e, n);
      }
    }
  }

  lemma NewcomerParked(cfg: Config, w: World, e: Event, n: Bytes)
    requires WellFormed(w.st) && n !in w.st.clients
    ensures n in Next(cfg, w, e).st.clients ==>
              && e.SignOnEvent?
              && var a := ReadApplication(e.packet);
                 Next(cfg, w, e).st.clients[n].saved == Spot(FloatValue(a.posx), FloatValue(a.posy), FloatValue(a.posz))
  {
    hide Next, React, SignOn, ReadApplication, Refusal, Admitted, Sorted, Entered, InsertKey;
    if !e.SignOnEvent? {
      NobodyNew(cfg, w, e);
    } else {
      var p, g := e.packet, e.garbage;
      SignOnNext(cfg, w, p, g);
      if Refusal(cfg, w.st, ReadApplication(p)).Some? {
        SignOnRefused(cfg, w.st, p, g);
      } else {
        SignOnEffect(cfg, w.st, p, g);
        AdmittedRest(cfg, ReadApplication(p), g);
      }
    }
  }

  /** A request to be put back (type 8) is answered, if teleporting is allowed, with one message of type 8: the three
      coordinates of the place where the player last saved its position, or signed on. Otherwise it is not answered. */
  lemma {:induction false} SavedComesBack(cfg: Config, events: seq<Event>, n: Bytes, q: Packet)
    requires n in Run(cfg, events).st.clients && q.At(0) == 8
    ensures var w, spot := Run(cfg, events), Parked(cfg, events, n);
            var m := LoadMessage(w.st.clients[n]);
            && Run(cfg, events + [QueryEvent(n, q)]).sent(n) == w.sent(n) + (if cfg.allowTeleport then [m] else [])
            && Whole(m).At(0) == 8
            && m[1..] == EmitValue(spot.x) + EmitValue(spot.y) + EmitValue(spot.z)
  {
    hide Run, LoadMessage, EmitValue, Answers;
    var w, e := Run(cfg, events), QueryEvent(n, q);
    SavedIsParked(cfg, events, n);
    LoadParts(w.st.clients[n]);
    AnswerByKind(cfg, w.st, Some(w.st.clients[n]), 8);
    RunOneMore(cfg, events, e);
    MinorUnfolded(cfg, w, e);
  }

  lemma LoadParts(c: Session)
    ensures var m := LoadMessage(c);
            |m| > 0 && m[0] == 8 && m[1..] == EmitValue(c.saved.x) + EmitValue(c.saved.y) + EmitValue(c.saved.z)
  {
    hide EmitValue;
  }

  lemma RunOneMore(cfg: Config, events: seq<Event>, e: Event)
    ensures Run(cfg, events + [e]) == Next(cfg, Run(cfg, events), e)
  {
    hide Next;
    assert (events + [e])[..|events|] == events;
  }
}
