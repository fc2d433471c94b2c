/** No message is lost, repeated or invented between being addressed to a player and reaching it. */
module Inbox {
  import opened Wire
  import opened Clients
  import opened Server
  import opened Registry
  import opened Replication

  /** The messages an event is meant to put before player o, in order: a newcomer is announced to its
      level, a death and a chat line to the level and the player itself. Clients that are not registered
      are heard on their level. */
  function AddressedBy(cfg: Config, st: State, e: Event, o: Bytes): seq<Bytes>
    requires OrderCovered(st) && o in st.clients
  {
    match e
    case SignOnEvent(p, g) =>
      var a := ReadApplication(p);
      var c := Admitted(cfg, a, g);
      if Refusal(cfg, st, a).None? && st.clients[o].levelPath == a.levelPath then
        [EnteredNotice(c), SpawnMessage(c, c.team)]
      else []
    case UpdateEvent(me, p, now) =>
      if me in st.clients && SameLevel(st.clients[o], st.clients[me]) &&
         FateAt(st.clients[me], p, now) == Announced then
        [DiedNotice(st.clients[me])]
      else []
    case ChatEvent(me, p) =>
      if me in st.clients && SameLevel(st.clients[o], st.clients[me]) then
        [ChatMessage(me, ReadString(p, AfterString(p, 1)))]
      else []
    case OutsideEvent(c, p, now) =>
      if !SameLevel(st.clients[o], c) then []
      else if p.At(0) == UPDATE_GAME then (if FateAt(c, p, now) == Announced then [DiedNotice(c)] else [])
      else if p.At(0) == MESSAGE then [ChatMessage(c.username, ReadString(p, AfterString(p, 1)))]
      else []
    case QueryEvent(_, _) => []
    case DisconnectEvent => []
  }

  /** Everything addressed to o since it signed on. */
  function Addressed(cfg: Config, events: seq<Event>, o: Bytes): seq<Bytes>
  {
    if events == [] then []
    else
      var before := events[..|events| - 1];
      var st := Run(cfg, before).st;
      if o !in st.clients then [] else Addressed(cfg, before, o) + AddressedBy(cfg, st, events[|events| - 1], o)
  }

  /** The replies of each update of o that took the place of its inbox. */
  function Batches(cfg: Config, events: seq<Event>, o: Bytes): seq<seq<Bytes>>
  {
    if events == [] then []
    else
      var before := events[..|events| - 1];
      var e := events[|events| - 1];
      var st := Run(cfg, before).st;
      if o !in st.clients then []
      else Batches(cfg, before, o) + DrainedBy(cfg, st, e, o)
  }

  function DrainedBy(cfg: Config, st: State, e: Event, o: Bytes): seq<seq<Bytes>>
    requires OrderCovered(st) && o in st.clients
  {
    if e.UpdateEvent? && e.who == o then
      UpdateRepliesLong(st, o, e.packet, e.now);
      [Update(st, o, e.packet, e.now).out[..|st.clients[o].inbox|]]
    else []
  }

  lemma UpdateRepliesLong(st: State, me: Bytes, p: Packet, now: int)
    requires OrderCovered(st) && me in st.clients
    ensures var out := Update(st, me, p, now).out;
            && |out| >= |st.clients[me].inbox|
            && out[..|st.clients[me].inbox|] == Reverse(st.clients[me].inbox)
  {
    hide Settled, Sync, Peers, Aftermath, Decoded, Reverse;
    DecodedIdentity(st.clients[me], p);
  }

  /** The batches read backwards, one after the other. */
  function Unreversed(batches: seq<seq<Bytes>>): seq<Bytes>
  {
    if batches == [] then []
    else Unreversed(batches[..|batches| - 1]) + Reverse(batches[|batches| - 1])
  }

  lemma UnreversedAppend(batches: seq<seq<Bytes>>, b: seq<Bytes>)
    ensures Unreversed(batches + [b]) == Unreversed(batches) + Reverse(b)
  {
    assert (batches + [b])[..|batches|] == batches;
  }

  lemma ReverseTwice(s: seq<Bytes>)
    ensures Reverse(Reverse(s)) == s
  {
  }

  ghost predicate Conserved(addressed: seq<Bytes>, batches: seq<seq<Bytes>>, inbox: seq<Bytes>)
  {
    addressed == Unreversed(batches) + inbox
  }

  // ---------------------------------------------------------------- one step

  lemma SignOnMail(cfg: Config, st: State, p: Packet, g: Garbage, o: Bytes)
    requires WellFormed(st) && o in st.clients
    ensures o in SignOn(cfg, st, p, g).st.clients
    ensures SignOn(cfg, st, p, g).st.clients[o].inbox ==
            st.clients[o].inbox + AddressedBy(cfg, st, SignOnEvent(p, g), o)
  {
    hide ReadApplication, Refusal, Entered, Sorted, EnteredNotice, SpawnMessage, WelcomeMessage, SpawnMessages, Peers,
      InsertKey, NewSession, LevelName;
    if Refusal(cfg, st, ReadApplication(p)).Some? {
      SignOnRefused(cfg, st, p, g);
    } else {
      var a := ReadApplication(p);
      var c := Admitted(cfg, a, g);
      NewcomerAbsent(cfg, st, p, g);
      IntroducedMail(Registered(st, c).clients, c, o);
      assert SameLevel(st.clients[o], c) <==> st.clients[o].levelPath == a.levelPath;
      hide Admitted, Introduced;
      SignOnIntroduces(cfg, st, p, g);
    }
  }

  lemma SignOnIntroduces(cfg: Config, st: State, p: Packet, g: Garbage)
    requires OrderCovered(st) && Refusal(cfg, st, ReadApplication(p)).None?
    ensures var c := Admitted(cfg, ReadApplication(p), g);
            SignOn(cfg, st, p, g).st.clients == Introduced(Registered(st, c).clients, c)
  {
    hide ReadApplication, Refusal, Admitted, Introduced, WelcomeMessage, SpawnMessages, Peers, InsertKey;
  }

  lemma NewcomerAbsent(cfg: Config, st: State, p: Packet, g: Garbage)
    requires WellFormed(st) && Refusal(cfg, st, ReadApplication(p)).None?
    ensures ReadApplication(p).username !in st.clients
    ensures Admitted(cfg, ReadApplication(p), g).username == ReadApplication(p).username
  {
    hide ReadApplication, Admitted, Refusal, Sorted;
    AdmittedEntered(cfg, st, p, g);
    AdmittedName(cfg, ReadApplication(p), g);
  }

  lemma IntroducedMail(clients: map<Bytes, Session>, c: Session, o: Bytes)
    requires c.username in clients && clients[c.username] == c && o in clients && o != c.username
    ensures o in Introduced(clients, c)
    ensures Introduced(clients, c)[o].inbox == clients[o].inbox +
            if SameLevel(clients[o], c) then [EnteredNotice(c), SpawnMessage(c, c.team)] else []
  {
    hide EnteredNotice, SpawnMessage;
  }

  lemma UpdateMail(st: State, me: Bytes, p: Packet, now: int, o: Bytes, cfg: Config)
    requires OrderCovered(st) && me in st.clients && o in st.clients
    ensures o in Update(st, me, p, now).st.clients
    ensures var more := AddressedBy(cfg, st, UpdateEvent(me, p, now), o);
            Update(st, me, p, now).st.clients[o].inbox == if o == me then more else st.clients[o].inbox + more
  {
    hide Sync, Peers, Decoded, DiedNotice, FateOf, StoreAll, Assigned, SelfMessage;
    var decoded := Decoded(st.clients[me], p);
    DecodedIdentity(st.clients[me], p);
    FateIgnoresInbox(decoded, now);
    DiedNoticeName(decoded.(inbox := [], deathChanged := true, timeOfDeath := now), st.clients[me]);
    DiedNoticeName(decoded.(inbox := []), st.clients[me]);
  }

  lemma DiedNoticeName(a: Session, b: Session)
    requires a.username == b.username
    ensures DiedNotice(a) == DiedNotice(b)
  {
  }

  lemma MinorMail(cfg: Config, st: State, e: Event, o: Bytes)
    requires WellFormed(st) && o in st.clients && Minor(e)
    ensures AddressedBy(cfg, st, e, o) == Mail(st, e, o)
  {
    hide Sorted, ChatMessage, ReadString, AfterString, FateAt, DiedNotice;
    if e.ChatEvent? && e.who in st.clients {
      NameFits(st, e.who);
    }
  }

  /** What a step addresses to a player is what its drained messages and its inbox have more than before. */
  lemma StepMail(cfg: Config, st: State, e: Event, o: Bytes)
    requires WellFormed(st) && o in st.clients && !e.DisconnectEvent?
    ensures var after := React(cfg, st, e).st;
            && o in after.clients
            && st.clients[o].inbox + AddressedBy(cfg, st, e, o) ==
                 Unreversed(DrainedBy(cfg, st, e, o)) + after.clients[o].inbox
  {
    hide SignOn, Update, Chat, Query, OutsideState, AddressedBy, Reverse, Sorted, Entered, Mail;
    match e
    case SignOnEvent(p, g) =>
      SignOnMail(cfg, st, p, g, o);
    case ChatEvent(_, _) =>
      MinorState(cfg, st, e);
      MinorMail(cfg, st, e, o);
    case QueryEvent(_, _) =>
      MinorState(cfg, st, e);
      MinorMail(cfg, st, e, o);
    case OutsideEvent(_, _, _) =>
      MinorState(cfg, st, e);
      MinorMail(cfg, st, e, o);
    case UpdateEvent(me, p, now) =>
      if me in st.clients {
        UpdateMail(st, me, p, now, o, cfg);
        UpdateRepliesLong(st, me, p, now);
        ReverseTwice(st.clients[me].inbox);
        UnreversedAppend([], Reverse(st.clients[me].inbox));
      } else {
        NothingAddressed(cfg, st, e, o);
      }
  }

  lemma NothingAddressed(cfg: Config, st: State, e: Event, o: Bytes)
    requires OrderCovered(st) && o in st.clients && e.UpdateEvent? && e.who !in st.clients
    ensures AddressedBy(cfg, st, e, o) == []
  {
  }

  // ---------------------------------------------------------------- whole runs

  lemma {:induction false} UnreversedConcat(a: seq<seq<Bytes>>, b: seq<seq<Bytes>>)
    ensures Unreversed(a + b) == Unreversed(a) + Unreversed(b)
  {
    hide Reverse;
    if b == [] {
      assert a + b == a;
    } else {
      var front := b[..|b| - 1];
      UnreversedConcat(a, front);
      assert (a + b)[..|a + b| - 1] == a + front;
    }
  }

  /** Conservation, with order: what was addressed to a player is what its batches held, each read
      backwards, followed by its inbox. */
  lemma {:induction false} InboxConservation(cfg: Config, events: seq<Event>, o: Bytes)
    ensures o in Run(cfg, events).st.clients ==>
              Conserved(Addressed(cfg, events, o), Batches(cfg, events, o), Run(cfg, events).st.clients[o].inbox)
  {
    hide Next, React, Invariant, AddressedBy, DrainedBy, Unreversed, WellFormed, SameIdentity;
    if events == [] {
      NobodyAtStart(o);
    } else {
      var before, e := events[..|events| - 1], events[|events| - 1];
      var w := Run(cfg, before);
      RunInvariant(cfg, before);
      InvariantWellFormed(w);
      NextRegistry(cfg, w, e);
      InboxConservation(cfg, before, o);
      if e.DisconnectEvent? {
        DisconnectUnfolded(cfg, w);
      } else if o in w.st.clients {
        StepMail(cfg, w.st, e, o);
        var batches, drained := Batches(cfg, before, o), DrainedBy(cfg, w.st, e, o);
        var inbox, more := w.st.clients[o].inbox, AddressedBy(cfg, w.st, e, o);
        UnreversedConcat(batches, drained);
        assert (Unreversed(batches) + inbox) + more == Unreversed(batches) + (inbox + more);
      } else {
        NewcomerInbox(cfg, w, e, o);
        UnreversedEmpty();
      }
    }
  }

  lemma UnreversedEmpty()
    ensures Unreversed([]) == []
  {
  }

  lemma InvariantWellFormed(w: World)
    requires Invariant(w)
    ensures WellFormed(w.st)
  {
  }

  lemma NewcomerInbox(cfg: Config, w: World, e: Event, o: Bytes)
    requires WellFormed(w.st) && o !in w.st.clients
    ensures o in Next(cfg, w, e).st.clients ==> Next(cfg, w, e).st.clients[o].inbox == []
  {
    hide Next, React, Sorted, Entered, ReadApplication, Refusal, Settled, Sync, Peers, Refreshed, Recorded, Mail,
      Answered;
    match e
    case SignOnEvent(p, g) =>
      if Refusal(cfg, w.st, ReadApplication(p)).Some? {
        RefusedUnfolded(cfg, w, p, g);
      } else {
        SignOnUnfolded(cfg, w, p, g);
      }
    case UpdateEvent(me, p, now) =>
      if me in w.st.clients {
        UpdateUnfolded(cfg, w, me, p, now);
      } else {
        IdleUpdate(cfg, w, me, p, now);
      }
    case DisconnectEvent =>
      DisconnectUnfolded(cfg, w);
    case ChatEvent(_, _) =>
      MinorUnfolded(cfg, w, e);
    case QueryEvent(_, _) =>
      MinorUnfolded(cfg, w, e);
    case OutsideEvent(_, _, _) =>
      MinorUnfolded(cfg, w, e);
  }

  function Pooled(batches: seq<seq<Bytes>>): multiset<Bytes>
  {
    if batches == [] then multiset{}
    else Pooled(batches[..|batches| - 1]) + multiset(batches[|batches| - 1])
  }

  lemma {:induction false} ReverseMultiset(s: seq<Bytes>)
    ensures multiset(Reverse(s)) == multiset(s)
  {
    if s != [] {
      var front, last := s[..|s| - 1], s[|s| - 1];
      ReverseMultiset(front);
      assert s == front + [last];
    }
  }

  lemma {:induction false} PooledUnreversed(batches: seq<seq<Bytes>>)
    ensures multiset(Unreversed(batches)) == Pooled(batches)
  {
    if batches != [] {
      PooledUnreversed(batches[..|batches| - 1]);
      ReverseMultiset(batches[|batches| - 1]);
    }
  }

  /** Delivered plus pending is addressed, message for message. */
  lemma {:induction false} NothingLostOrRepeated(cfg: Config, events: seq<Event>, o: Bytes)
    ensures o in Run(cfg, events).st.clients ==>
              Pooled(Batches(cfg, events, o)) + multiset(Run(cfg, events).st.clients[o].inbox) ==
              multiset(Addressed(cfg, events, o))
  {
    hide Run, Addressed, Batches, Unreversed, Pooled;
    InboxConservation(cfg, events, o);
    PooledUnreversed(Batches(cfg, events, o));
  }
}
