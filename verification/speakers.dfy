/** What an observer's turn leaves in its replica of a wire name, exactly, and when a variable that was
    sent arrives. */
module Speakers {
  import opened Wire
  import opened History
  import opened Clients
  import opened Server
  import opened Registry
  import opened Replication
  import opened Schedules
  import opened Revives

  // ---------------------------------------------------------------- what a wire name's replica holds

  /** The variables sent for a peer in the observer's turn. */
  function SentTypes(keys: map<Bytes, int>, peer: Session): seq<Byte>
  {
    if peer.username !in keys || keys[peer.username] == -1 then [] else Missing(peer.history, keys[peer.username])
  }

  /** The last of the peers of this wire name about which t is sent. */
  function LastSpeaker(clients: map<Bytes, Session>, names: seq<Bytes>, keys: map<Bytes, int>, name: Bytes,
    t: Byte): Option<Bytes>
    requires forall n :: n in names ==> n in clients
  {
    if names == [] then None
    else
      var last := names[|names| - 1];
      if CStr(last) == name && t in SentTypes(keys, clients[last]) then Some(last)
      else LastSpeaker(clients, names[..|names| - 1], keys, name, t)
  }

  /** One round of the peer loop, as the replica of a wire name sees it. */
  lemma OneSpeaks(keys: map<Bytes, int>, peer: Session, name: Bytes, replica: map<Byte, Value>, t: Byte)
    requires StrLen(peer.username) <= 127 && Carried(t)
    ensures var after := Learns(replica, SyncOne(keys, peer).1, name);
            if CStr(peer.username) == name && t in SentTypes(keys, peer) then Holds(after, t, peer.vars[t])
            else SameAt(after, replica, t)
  {
    hide Missing, UpdateMessage, Learn, CStr, StrLen, Merge, RecordsFor, Carried;
    var types := SentTypes(keys, peer);
    if types != [] {
      assert SyncOne(keys, peer).1 == [UpdateMessage(peer, types)];
      LearnsOne(replica, UpdateMessage(peer, types), name);
      LearnUpdate(replica, peer, types, name);
      MergeRecordsFor(replica, peer.vars, types, t);
    }
  }

  /** After the peer loop the replica of a wire name has the value of the last peer of that name about
      which t was sent, or what it had if there was none. */
  lemma {:induction false} LastSpeakerWins(clients: map<Bytes, Session>, names: seq<Bytes>, keys: map<Bytes, int>,
                                           name: Bytes, replica: map<Byte, Value>, t: Byte)
    requires forall n :: n in names ==> n in clients && clients[n].username == n && StrLen(n) <= 127
    requires Distinct(names) && Carried(t)
    ensures var after := Learns(replica, Sync(clients, names, keys).1, name);
            match LastSpeaker(clients, names, keys, name, t)
            case None => SameAt(after, replica, t)
            case Some(n) => n in names && Holds(after, t, clients[n].vars[t])
  {
    hide CStr, StrLen, Learn, SentTypes, SyncOne, Carried;
    if names != [] {
      var front, last := names[..|names| - 1], names[|names| - 1];
      assert last !in front;
      LastSpeakerWins(clients, front, keys, name, replica, t);
      var (keys1, out) := Sync(clients, front, keys);
      LearnsConcat(replica, out, SyncOne(keys1, clients[last]).1, name);
      SyncKeys(clients, front, keys, last);
      SyncOneLocal(keys1, keys, clients[last]);
      OneSpeaks(keys, clients[last], name, Learns(replica, out, name), t);
    }
  }

  /** The peer whose value o's turn leaves in the replica of a wire name. */
  function Speaker(st: State, o: Bytes, name: Bytes, t: Byte): Option<Bytes>
    requires OrderCovered(st) && o in st.clients
  {
    LastSpeaker(st.clients, Peers(st.clients, st.order, o), st.clients[o].keys, name, t)
  }

  lemma {:induction false} PeersKept(a: map<Bytes, Session>, b: map<Bytes, Session>, order: seq<Bytes>, me: Bytes)
    requires me in a && forall n :: n in order ==> n in a
    requires forall n :: n in a ==> n in b && SameIdentity(a[n], b[n])
    ensures Peers(a, order, me) == Peers(b, order, me)
  {
    if order != [] {
      PeersKept(a, b, order[..|order| - 1], me);
    }
  }

  lemma {:induction false} SpeakerKept(a: map<Bytes, Session>, b: map<Bytes, Session>, names: seq<Bytes>,
                                       keys: map<Bytes, int>, name: Bytes, t: Byte)
    requires forall n :: n in names ==> n in a && n in b && SameButInbox(a[n], b[n])
    ensures LastSpeaker(a, names, keys, name, t) == LastSpeaker(b, names, keys, name, t)
  {
    hide CStr, Missing;
    if names != [] {
      SpeakerKept(a, b, names[..|names| - 1], keys, name, t);
    }
  }

  /** The update of o, for any wire name at all. */
  lemma TurnSpeaks(cfg: Config, w: World, o: Bytes, p: Packet, now: int, name: Bytes, t: Byte)
    requires Invariant(w) && o in w.st.clients && Carried(t)
    ensures OrderCovered(w.st)
    ensures var w' := Next(cfg, w, UpdateEvent(o, p, now));
            match Speaker(w.st, o, name, t)
            case None => SameAt(Replica(w'.sent(o), name), Replica(w.sent(o), name), t)
            case Some(n) => IsPeer(w.st.clients, o, n) && Holds(Replica(w'.sent(o), name), t, w.st.clients[n].vars[t])
  {
    hide Next, React, Settled, Refreshed, Peers, Sync, Sorted, Entered, Quiet, Learns, CStr, StrLen, FullAfter, PairOk,
      FateAt, Records, Carried, LastSpeaker, SentTypes, Recorded;
    var clients, settled := w.st.clients, Settled(w.st.clients, o, p, now);
    UpdateUnfolded(cfg, w, o, p, now);
    SettledEffect(clients, o, p, now);
    SettledWellFormed(w.st, o, p, now);
    assert PlayerOk(w, o);
    SenderWrites(clients[o], w.full(o), p, now);
    PeersKept(clients, settled, w.st.order, o);
    var names := Peers(clients, w.st.order, o);
    SortedDistinct(w.st.order);
    PeersDistinct(clients, w.st.order, o);
    SpeakerKept(clients, settled, names, clients[o].keys, name, t);
    var quiet, updates := Refreshed(clients[o], p, now).1, Sync(settled, names, clients[o].keys).1;
    LearnsConcat(map[], w.sent(o), quiet + updates, name);
    LearnsConcat(Replica(w.sent(o), name), quiet, updates, name);
    LearnsQuiet(Replica(w.sent(o), name), quiet, name);
    forall n | n in names
      ensures settled[n].username == n && StrLen(n) <= 127
    {
      NameFits(State(settled, w.st.order), n);
    }
    LastSpeakerWins(settled, names, clients[o].keys, name, Replica(w.sent(o), name), t);
  }

  /** Exactly when o is right about s after its turn, in every run and whoever shares the name of s: if
      the last peer of that wire name about which t was sent has the same value, or, if t was sent about
      none of them, if o was right already. */
  lemma {:induction false} CurrentAfterTurnIff(cfg: Config, events: seq<Event>, o: Bytes, p: Packet, now: int,
                                               s: Bytes, t: Byte)
    requires Carried(t)
    ensures var w := Run(cfg, events);
            IsPeer(w.st.clients, o, s) ==>
              (Current(Run(cfg, events + [UpdateEvent(o, p, now)]), o, s, t) <==>
               match Speaker(w.st, o, CStr(s), t)
               case None => Current(w, o, s, t)
               case Some(n) => n in w.st.clients && w.st.clients[n].vars[t] == w.st.clients[s].vars[t])
  {
    hide Run, Next, Replica, CStr, Settled, Sync, Peers, Refreshed, PairOk, PlayerOk, Sorted, Entered, Speaker,
      SameLevel;
    var w, e := Run(cfg, events), UpdateEvent(o, p, now);
    RunInvariant(cfg, events);
    LastOf(cfg, events, [e]);
    assert events + [e][..0] == events;
    if IsPeer(w.st.clients, o, s) {
      TurnSpeaks(cfg, w, o, p, now, CStr(s), t);
      UpdateUnfolded(cfg, w, o, p, now);
      SettledEffect(w.st.clients, o, p, now);
    }
  }

  lemma {:induction false} SpeakerFound(clients: map<Bytes, Session>, names: seq<Bytes>, keys: map<Bytes, int>,
                                        name: Bytes, t: Byte, n: Bytes)
    requires forall x :: x in names ==> x in clients
    ensures var speaker := LastSpeaker(clients, names, keys, name, t);
            && (speaker.Some? ==>
                  && speaker.value in names && CStr(speaker.value) == name
                  && t in SentTypes(keys, clients[speaker.value]))
            && (n in names && CStr(n) == name && t in SentTypes(keys, clients[n]) ==> speaker.Some?)
  {
    hide CStr, SentTypes;
    if names != [] {
      SpeakerFound(clients, names[..|names| - 1], keys, name, t, n);
    }
  }

  // ---------------------------------------------------------------- a peer with a wire name of its own

  /** o's turn sends t about s. */
  ghost predicate Sends(w: World, o: Bytes, s: Bytes, t: Byte)
  {
    w.links(o, s).Some? && w.links(o, s).value.pos < |w.full(s)| && Named(w.full(s), w.links(o, s).value.pos, t)
  }

  lemma SendsIff(w: World, o: Bytes, s: Bytes, t: Byte)
    requires Invariant(w) && IsPeer(w.st.clients, o, s)
    ensures t in SentTypes(w.st.clients[o].keys, w.st.clients[s]) <==> Sends(w, o, s, t)
  {
    hide Agrees, Quiet, Unambiguous, Sorted, Missing, Window, Named;
    assert PlayerOk(w, s) && PairOk(w, o, s) && Entered(w.st.clients[s], s);
    if w.links(o, s).Some? {
      NamedIff(w.full(s), w.links(o, s).value.pos, t);
    }
  }

  /** With a wire name of its own, nobody else can speak for s. */
  lemma SpeaksAlone(w: World, o: Bytes, s: Bytes, t: Byte)
    requires Invariant(w) && Distinguished(w, o, s)
    ensures Speaker(w.st, o, CStr(s), t) == if Sends(w, o, s, t) then Some(s) else None
  {
    hide PairOk, PlayerOk, Sorted, Entered, CStr, SentTypes, LastSpeaker, Peers, Sends;
    var names := Peers(w.st.clients, w.st.order, o);
    SpeakerFound(w.st.clients, names, w.st.clients[o].keys, CStr(s), t, s);
    SendsIff(w, o, s, t);
    var speaker := Speaker(w.st, o, CStr(s), t);
    if speaker.Some? {
      assert IsPeer(w.st.clients, o, speaker.value);
    }
  }

  /** Exactly when o is right about a variable after its turn, in every run and at every lag: if one of
      the last (lag mod 11) updates of s sent it and the lag is not 10 modulo 11, or if o was right. */
  lemma {:induction false} TurnIff(cfg: Config, events: seq<Event>, o: Bytes, q: Packet, later: int, s: Bytes, t: Byte)
    requires Carried(t)
    ensures var w := Run(cfg, events);
            Distinguished(w, o, s) ==>
              (Current(Run(cfg, events + [UpdateEvent(o, q, later)]), o, s, t) <==>
                Sends(w, o, s, t) || Current(w, o, s, t))
  {
    hide Run, Current, Sends, Invariant, SameLevel, CStr, Unambiguous, Carried, LastSpeaker, Peers;
    var w := Run(cfg, events);
    RunInvariant(cfg, events);
    if Distinguished(w, o, s) {
      SpeaksAlone(w, o, s, t);
      CurrentAfterTurnIff(cfg, events, o, q, later, s, t);
    }
  }

  /** Delivery, end to end and exactly: after any run, if s sends a packet that carries t and o updates
      next, o's replica holds the value that s then has, the healed one if that packet revived s, if and
      only if o has met s and was then not 0 or 10 updates behind modulo 11, or o was right by chance. */
  lemma {:induction false} Delivered(cfg: Config, events: seq<Event>, o: Bytes, s: Bytes, p: Packet, now: int,
                                     q: Packet, later: int, t: Byte)
    requires t in Tags(Records(PeerGrammar, p, 1)) && Carried(t)
    ensures var w, sent := Run(cfg, events), events + [UpdateEvent(s, p, now)];
            Distinguished(w, o, s) ==>
              (Current(Run(cfg, sent + [UpdateEvent(o, q, later)]), o, s, t) <==>
               Reachable(w, o, s) || Current(Run(cfg, sent), o, s, t))
  {
    hide Run, Next, Current, Records, Invariant, Unambiguous, Carried, Tags, Sends, SameLevel, Reachable;
    var w, e := Run(cfg, events), UpdateEvent(s, p, now);
    RunInvariant(cfg, events);
    if Distinguished(w, o, s) {
      SentOnce(cfg, w, o, s, p, now, t);
      LastOf(cfg, events, [e]);
      assert events + [e][..0] == events;
      TurnIff(cfg, events + [e], o, q, later, s, t);
      NewestSends(w, Run(cfg, events + [e]), o, s, t);
    }
  }

  /** What s sends next will be named in o's turn. */
  ghost predicate Reachable(w: World, o: Bytes, s: Bytes)
  {
    w.links(o, s).Some? && (|w.full(s)| - w.links(o, s).value.pos) % KEYS !in {0, MAX_HISTORY}
  }

  lemma NewestSends(w: World, w1: World, o: Bytes, s: Bytes, t: Byte)
    requires |w1.full(s)| == |w.full(s)| + 1 && t in w1.full(s)[|w.full(s)|]
    requires w1.links(o, s).Some? <==> w.links(o, s).Some?
    requires w.links(o, s).Some? ==>
               w1.links(o, s).value.pos == w.links(o, s).value.pos && w.links(o, s).value.pos < |w.full(s)|
    ensures Sends(w1, o, s, t) <==> Reachable(w, o, s)
  {
  }
}
