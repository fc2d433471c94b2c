/** Who has been told of whom: the SpawnCharacter messages delivered to, or waiting for, a player. */
module Visibility {
  import opened Wire
  import opened History
  import opened Clients
  import opened Server
  import opened Registry
  import opened Replication

  predicate Spawns(m: Bytes, name: Bytes)
  {
    m != [] && m[0] == SPAWN_CHARACTER && ReadString(Whole(m), 1) == name
  }

  function Count(ms: seq<Bytes>, name: Bytes): nat
  {
    if ms == [] then 0
    else Count(ms[..|ms| - 1], name) + if Spawns(ms[|ms| - 1], name) then 1 else 0
  }

  lemma {:induction false} CountConcat(a: seq<Bytes>, b: seq<Bytes>, name: Bytes)
    ensures Count(a + b, name) == Count(a, name) + Count(b, name)
  {
    hide Spawns;
    if b == [] {
      assert a + b == a;
    } else {
      assert (a + b)[..|a + b| - 1] == a + b[..|b| - 1];
      CountConcat(a, b[..|b| - 1], name);
    }
  }

  lemma CountOne(m: Bytes, name: Bytes)
    ensures Count([m], name) == if Spawns(m, name) then 1 else 0
  {
    hide Spawns;
    var before := [m][..0];
    assert before == [] && Count(before, name) == 0;
  }

  lemma {:induction false} CountReverse(ms: seq<Bytes>, name: Bytes)
    ensures Count(Reverse(ms), name) == Count(ms, name)
  {
    hide Spawns;
    if ms != [] {
      var front, last := ms[..|ms| - 1], ms[|ms| - 1];
      CountReverse(front, name);
      CountConcat([last], Reverse(front), name);
      CountOne(last, name);
    }
  }

  predicate NoSpawn(m: Bytes)
  {
    m != [] && m[0] != SPAWN_CHARACTER
  }

  lemma {:induction false} CountNoSpawn(ms: seq<Bytes>, name: Bytes)
    requires forall m :: m in ms ==> NoSpawn(m)
    ensures Count(ms, name) == 0
  {
    if ms != [] {
      assert NoSpawn(ms[|ms| - 1]);
      CountNoSpawn(ms[..|ms| - 1], name);
    }
  }

  /** A spawn message names its player up to the first NUL. */
  lemma SpawnNames(c: Session, second: Bytes, name: Bytes)
    requires StrLen(c.username) <= 127
    ensures Spawns(SpawnMessage(c, second), name) <==> CStr(c.username) == name
  {
    hide EncodeString, StrLen, CStr, ReadString, EmitValue;
    HeadRead(SpawnMessage(c, second), SPAWN_CHARACTER, c.username,
             SpawnMessage(c, second)[1 + |EncodeString(c.username)|..]);
  }

  // ---------------------------------------------------------------- the messages of a step

  lemma {:induction false} SyncNoSpawn(clients: map<Bytes, Session>, names: seq<Bytes>, keys: map<Bytes, int>)
    requires forall n :: n in names ==> n in clients
    ensures forall m :: m in Sync(clients, names, keys).1 ==> NoSpawn(m)
  {
    hide EncodeString, Encode, RecordsFor, Missing, LastKey;
    if names != [] {
      SyncNoSpawn(clients, names[..|names| - 1], keys);
    }
  }

  lemma NoticeNoSpawn(content: Bytes)
    ensures NoSpawn(NoticeMessage(content))
  {
    hide EncodeString, EmitValue;
  }

  lemma WelcomeNoSpawn(cfg: Config, c: Session)
    ensures NoSpawn(WelcomeMessage(cfg, c))
  {
    hide EncodeString, EmitValue;
  }

  lemma AftermathNoSpawn(c: Session, now: int)
    requires c.inbox == []
    ensures forall m :: m in Aftermath(c, now).0.inbox + Aftermath(c, now).1 ==> NoSpawn(m)
  {
    hide FateOf, StoreAll, Assigned, RecordsFor, Encode, Select, NoticeMessage;
    NoticeNoSpawn(c.username + Text(" has died."));
  }

  /** An update moves the player's messages from its inbox to its connection and adds none. */
  lemma RefreshedCount(c: Session, p: Packet, now: int, name: Bytes)
    ensures var (after, out) := Refreshed(c, p, now);
            Count(out, name) + Count(after.inbox, name) == Count(c.inbox, name)
  {
    hide Decoded, Aftermath, NoSpawn, Count, Reverse;
    var decoded := Decoded(c, p);
    DecodedIdentity(c, p);
    var (after, self) := Aftermath(decoded.(inbox := []), now);
    AftermathNoSpawn(decoded.(inbox := []), now);
    CountReverse(decoded.inbox, name);
    CountConcat(Reverse(decoded.inbox), self, name);
    CountNoSpawn(self, name);
    CountNoSpawn(after.inbox, name);
  }

  lemma BroadcastCount(clients: map<Bytes, Session>, me: Bytes, message: Bytes, o: Bytes, name: Bytes)
    requires me in clients && o in clients
    ensures Count(Broadcast(clients, me, message)[o].inbox, name) ==
            Count(clients[o].inbox, name) + if IsPeer(clients, o, me) && Spawns(message, name) then 1 else 0
  {
    hide Count, Spawns;
    CountConcat(clients[o].inbox, [message], name);
    CountOne(message, name);
  }

  // ---------------------------------------------------------------- the invariant

  /** The players o should have been told of under this name. */
  ghost function Namesakes(clients: map<Bytes, Session>, o: Bytes, name: Bytes): set<Bytes>
  {
    set n | n in clients && IsPeer(clients, o, n) && CStr(n) == name
  }

  ghost predicate Told(w: World, o: Bytes, name: Bytes)
    requires o in w.st.clients
  {
    Count(w.sent(o), name) + Count(w.st.clients[o].inbox, name) == |Namesakes(w.st.clients, o, name)|
  }

  lemma NamesakesKept(a: map<Bytes, Session>, b: map<Bytes, Session>, o: Bytes, name: Bytes)
    requires a.Keys == b.Keys && forall n :: n in a ==> SameIdentity(a[n], b[n])
    ensures Namesakes(a, o, name) == Namesakes(b, o, name)
  {
    hide CStr;
    assert forall n :: n in a ==> n in a.Keys && n in b.Keys;
    assert forall n :: IsPeer(a, o, n) <==> IsPeer(b, o, n);
  }

  lemma UpdateTold(cfg: Config, w: World, me: Bytes, p: Packet, now: int, o: Bytes, name: Bytes)
    requires WellFormed(w.st) && me in w.st.clients && o in w.st.clients && Told(w, o, name)
    ensures var w' := Next(cfg, w, UpdateEvent(me, p, now)); o in w'.st.clients && Told(w', o, name)
  {
    hide Next, React, Settled, Refreshed, Sync, Peers, Count, Sorted, Entered, Namesakes, FateAt, Spawns, DiedNotice;
    var w' := Next(cfg, w, UpdateEvent(me, p, now));
    var settled := Settled(w.st.clients, me, p, now);
    UpdateUnfolded(cfg, w, me, p, now);
    SettledEffect(w.st.clients, me, p, now);
    NextRegistry(cfg, w, UpdateEvent(me, p, now));
    NamesakesKept(w.st.clients, w'.st.clients, o, name);
    if o == me {
      var out := Refreshed(w.st.clients[me], p, now).1;
      var updates := Sync(settled, Peers(settled, w.st.order, me), settled[me].keys).1;
      RefreshedCount(w.st.clients[me], p, now, name);
      SyncNoSpawn(settled, Peers(settled, w.st.order, me), settled[me].keys);
      CountNoSpawn(updates, name);
      CountConcat(w.sent(me), out + updates, name);
      CountConcat(out, updates, name);
    } else {
      SettledCount(w.st.clients, me, p, now, o, name);
    }
  }

  lemma SettledCount(clients: map<Bytes, Session>, me: Bytes, p: Packet, now: int, o: Bytes, name: Bytes)
    requires me in clients && o in clients && o != me
    ensures o in Settled(clients, me, p, now)
    ensures Count(Settled(clients, me, p, now)[o].inbox, name) == Count(clients[o].inbox, name)
  {
    hide Refreshed, Count, FateAt, NoticeMessage, Broadcast;
    var own := clients[me := Refreshed(clients[me], p, now).0];
    NoticeNoSpawn(clients[me].username + Text(" has died."));
    BroadcastEffect(own, me, DiedNotice(clients[me]));
    BroadcastCount(own, me, DiedNotice(clients[me]), o, name);
  }

  lemma TameNoSpawn(ms: seq<Bytes>, name: Bytes)
    requires forall m :: m in ms ==> Tame(m)
    ensures Count(ms, name) == 0
  {
    hide Count;
    CountNoSpawn(ms, name);
  }

  lemma MinorTold(cfg: Config, w: World, e: Event, o: Bytes, name: Bytes)
    requires WellFormed(w.st) && Minor(e) && o in w.st.clients && Told(w, o, name)
    ensures var w' := Next(cfg, w, e); o in w'.st.clients && Told(w', o, name)
  {
    hide Next, Count, Sorted, Entered, Namesakes, Mail, Answers, Tame;
    var w' := Next(cfg, w, e);
    MinorUnfolded(cfg, w, e);
    assert o in w'.st.clients.Keys;
    MailTame(w.st, e, o);
    TameNoSpawn(Mail(w.st, e, o), name);
    AnswersTame(cfg, w.st, Some(w.st.clients[o]), if e.QueryEvent? then e.packet.At(0) else 0);
    TameNoSpawn(Answered(cfg, w.st, e, o), name);
    CountConcat(w.st.clients[o].inbox, Mail(w.st, e, o), name);
    CountConcat(w.sent(o), Answered(cfg, w.st, e, o), name);
    NamesakesKept(w.st.clients, w'.st.clients, o, name);
  }

  // ---------------------------------------------------------------- sign-on

  /** The spawn messages for a list of distinct players, counted per name. */
  lemma {:induction false} SpawnMessagesCount(clients: map<Bytes, Session>, names: seq<Bytes>, name: Bytes)
    requires Distinct(names)
    requires forall n :: n in names ==> n in clients && clients[n].username == n && StrLen(n) <= 127
    ensures Count(SpawnMessages(clients, names), name) == |set n | n in names && CStr(n) == name|
  {
    hide SpawnMessage, Spawns, CStr, StrLen, Distinct;
    if names == [] {
      assert (set n | n in names && CStr(n) == name) == {};
    } else {
      var front, last := names[..|names| - 1], names[|names| - 1];
      var ms := SpawnMessages(clients, names);
      DistinctSplit(names, name);
      SpawnMessagesCount(clients, front, name);
      assert ms[..|ms| - 1] == SpawnMessages(clients, front);
      SpawnNames(clients[last], clients[last].username, name);
    }
  }

  lemma DistinctSplit(names: seq<Bytes>, name: Bytes)
    requires names != [] && Distinct(names)
    ensures Distinct(names[..|names| - 1])
    ensures |set n | n in names && CStr(n) == name| ==
            |set n | n in names[..|names| - 1] && CStr(n) == name| + if CStr(names[|names| - 1]) == name then 1 else 0
  {
    hide CStr;
    var front, last := names[..|names| - 1], names[|names| - 1];
    var all := set n | n in names && CStr(n) == name;
    var before := set n | n in front && CStr(n) == name;
    assert last !in front && forall n :: n in names <==> n in front || n == last;
    assert last !in before;
    assert all == if CStr(last) == name then before + {last} else before;
  }

  /** The replies to a sign-on introduce exactly the players on the level. */
  lemma {:induction false} RosterCount(st: State, me: Bytes, name: Bytes)
    requires WellFormed(st) && me in st.clients
    ensures Count(SpawnMessages(st.clients, Peers(st.clients, st.order, me)), name) == |Namesakes(st.clients, me, name)|
  {
    hide Entered, Sorted, Count, CStr, StrLen, SpawnMessages, Peers;
    var names := Peers(st.clients, st.order, me);
    SortedDistinct(st.order);
    PeersDistinct(st.clients, st.order, me);
    forall n | n in names
      ensures n in st.clients && st.clients[n].username == n && StrLen(n) <= 127
    {
      NameFits(st, n);
    }
    SpawnMessagesCount(st.clients, names, name);
    assert (set n | n in names && CStr(n) == name) == Namesakes(st.clients, me, name);
  }

  lemma NewcomerTold(cfg: Config, w: World, p: Packet, g: Garbage, name: Bytes)
    requires WellFormed(w.st) && Refusal(cfg, w.st, ReadApplication(p)).None?
    ensures var w' := Next(cfg, w, SignOnEvent(p, g));
            var a := ReadApplication(p).username;
            a in w'.st.clients && Told(w', a, name)
  {
    hide Next, SignOn, React, ReadApplication, Refusal, Admitted, Entered, Sorted, Count, Recorded, Registered,
      WelcomeMessage, NoSpawn, SpawnMessages, Peers, Namesakes;
    var w' := Next(cfg, w, SignOnEvent(p, g));
    var a := ReadApplication(p).username;
    var c := Admitted(cfg, ReadApplication(p), g);
    var joined := Registered(w.st, c);
    SignOnUnfolded(cfg, w, p, g);
    SignOnReplies(cfg, w, p, g);
    AdmittedEntered(cfg, w.st, p, g);
    JoinedWellFormed(w.st, c);
    JoinedIdentity(cfg, w.st, p, g);
    SignOnNext(cfg, w, p, g);
    var spawns := SpawnMessages(joined.clients, Peers(joined.clients, joined.order, a));
    RosterCount(joined, a, name);
    NamesakesKept(joined.clients, w'.st.clients, a, name);
    WelcomeNoSpawn(cfg, c);
    CountNoSpawn([WelcomeMessage(cfg, c)], name);
    CountConcat([WelcomeMessage(cfg, c)], spawns, name);
    EmptyCount(name);
  }

  lemma EmptyCount(name: Bytes)
    ensures Count([], name) == 0
  {
  }

  lemma SignOnReplies(cfg: Config, w: World, p: Packet, g: Garbage)
    requires OrderCovered(w.st) && Refusal(cfg, w.st, ReadApplication(p)).None?
    ensures var c := Admitted(cfg, ReadApplication(p), g);
            var joined := Registered(w.st, c);
            && OrderCovered(joined) && c.username == ReadApplication(p).username
            && Next(cfg, w, SignOnEvent(p, g)).sent(c.username) ==
                 [WelcomeMessage(cfg, c)] +
                   SpawnMessages(joined.clients, Peers(joined.clients, joined.order, c.username))
  {
    AdmittedName(cfg, ReadApplication(p), g);
    InsertKeyMembers(w.st.order, ReadApplication(p).username);
    hide ReadApplication, Refusal, Admitted, Introduced, WelcomeMessage, SpawnMessages, Peers, InsertKey;
  }

  lemma JoinedWellFormed(st: State, c: Session)
    requires WellFormed(st) && Entered(c, c.username)
    ensures WellFormed(Registered(st, c)) && c.username in Registered(st, c).clients
  {
    hide Sorted, Entered, InsertKey;
    InsertKeyMembers(st.order, c.username);
    InsertKeySorted(st.order, c.username);
  }

  lemma JoinedIdentity(cfg: Config, st: State, p: Packet, g: Garbage)
    requires OrderCovered(st) && Refusal(cfg, st, ReadApplication(p)).None?
    ensures var joined := Registered(st, Admitted(cfg, ReadApplication(p), g)).clients;
            var after := SignOn(cfg, st, p, g).st.clients;
            joined.Keys == after.Keys && forall n :: n in joined ==> SameIdentity(joined[n], after[n])
  {
    hide ReadApplication, Refusal, Admitted, SignOn, InsertKey;
    AdmittedName(cfg, ReadApplication(p), g);
    SignOnEffect(cfg, st, p, g);
  }

  lemma SignOnTold(cfg: Config, w: World, p: Packet, g: Garbage, o: Bytes, name: Bytes)
    requires WellFormed(w.st) && Refusal(cfg, w.st, ReadApplication(p)).None?
    requires o in w.st.clients && Told(w, o, name)
    ensures var w' := Next(cfg, w, SignOnEvent(p, g)); o in w'.st.clients && Told(w', o, name)
  {
    hide Next, SignOn, React, ReadApplication, Refusal, Admitted, Entered, Sorted, Count, Recorded, CStr, Namesakes;
    var w' := Next(cfg, w, SignOnEvent(p, g));
    var a := ReadApplication(p).username;
    NextRegistry(cfg, w, SignOnEvent(p, g));
    SignOnUnfolded(cfg, w, p, g);
    SignOnNext(cfg, w, p, g);
    IntroductionCount(cfg, w.st, p, g, o, name);
    NamesakesGrow(w.st.clients, w'.st.clients, a, o, name);
  }

  lemma PeersStay(a: map<Bytes, Session>, b: map<Bytes, Session>, o: Bytes, n: Bytes)
    requires o in a && n in a && o in b && n in b && SameIdentity(a[o], b[o]) && SameIdentity(a[n], b[n])
    ensures IsPeer(b, o, n) <==> IsPeer(a, o, n)
  {
  }

  lemma NamesakesGrow(a: map<Bytes, Session>, b: map<Bytes, Session>, newcomer: Bytes, o: Bytes, name: Bytes)
    requires newcomer !in a && o in a && b.Keys == a.Keys + {newcomer}
    requires forall n :: n in a ==> n in b && SameIdentity(a[n], b[n])
    ensures |Namesakes(b, o, name)| ==
            |Namesakes(a, o, name)| + if IsPeer(b, o, newcomer) && CStr(newcomer) == name then 1 else 0
  {
    hide CStr, IsPeer, SameIdentity;
    var before, after := Namesakes(a, o, name), Namesakes(b, o, name);
    assert forall n :: n in b <==> n in a || n == newcomer;
    forall n | n in a
      ensures IsPeer(b, o, n) <==> IsPeer(a, o, n)
    {
      PeersStay(a, b, o, n);
    }
    if IsPeer(b, o, newcomer) && CStr(newcomer) == name {
      assert after == before + {newcomer};
    } else {
      assert after == before;
    }
  }

  /** What a sign-on leaves in the inbox of a player that was already there. */
  lemma IntroductionCount(cfg: Config, st: State, p: Packet, g: Garbage, o: Bytes, name: Bytes)
    requires WellFormed(st) && Refusal(cfg, st, ReadApplication(p)).None? && o in st.clients
    ensures var after := SignOn(cfg, st, p, g).st.clients;
            var a := ReadApplication(p).username;
            && o in after
            && Count(after[o].inbox, name) ==
                 Count(st.clients[o].inbox, name) + if IsPeer(after, o, a) && CStr(a) == name then 1 else 0
  {
    hide ReadApplication, Refusal, Admitted, Entered, Sorted, Count, CStr, StrLen, InsertKey, Broadcast, EnteredNotice,
      SpawnMessage, SpawnMessages, WelcomeMessage, Peers, Spawns;
    var c := Admitted(cfg, ReadApplication(p), g);
    AdmittedEntered(cfg, st, p, g);
    NewcomerName(cfg, st, p, g);
    var joined := Registered(st, c).clients;
    var noticed := Broadcast(joined, c.username, EnteredNotice(c));
    SignOnEffect(cfg, st, p, g);
    BroadcastEffect(joined, c.username, EnteredNotice(c));
    BroadcastEffect(noticed, c.username, SpawnMessage(c, c.team));
    EnteredNoSpawn(c, name);
    BroadcastCount(joined, c.username, EnteredNotice(c), o, name);
    BroadcastCount(noticed, c.username, SpawnMessage(c, c.team), o, name);
    SpawnNames(c, c.team, name);
  }

  lemma NewcomerName(cfg: Config, st: State, p: Packet, g: Garbage)
    requires WellFormed(st) && Refusal(cfg, st, ReadApplication(p)).None?
    ensures var a := ReadApplication(p).username;
            a !in st.clients && Admitted(cfg, ReadApplication(p), g).username == a && StrLen(a) <= 127
  {
    assert |ReadApplication(p).username| <= 127;
    hide ReadApplication, Refusal, Admitted, Sorted;
    AdmittedEntered(cfg, st, p, g);
  }

  lemma EnteredNoSpawn(c: Session, name: Bytes)
    ensures !Spawns(EnteredNotice(c), name)
  {
    hide NoticeMessage, ReadString;
    NoticeNoSpawn(c.username + Text(" has entered the room."));
  }

  // ---------------------------------------------------------------- whole runs

  /** In every run, the spawn messages under any name that were delivered to a
      player or wait in its inbox number exactly the other players of that name on its level. */
  lemma {:induction false} EveryoneTold(cfg: Config, events: seq<Event>, o: Bytes, name: Bytes)
    ensures o in Run(cfg, events).st.clients ==> Told(Run(cfg, events), o, name)
  {
    hide Next, Told, React, Invariant;
    if events == [] {
      NobodyAtStart(o);
    } else {
      var before, e := events[..|events| - 1], events[|events| - 1];
      RunInvariant(cfg, before);
      EveryoneTold(cfg, before, o, name);
      if e.DisconnectEvent? {
        DisconnectUnfolded(cfg, Run(cfg, before));
      } else if o in Run(cfg, before).st.clients {
        NextTold(cfg, Run(cfg, before), e, o, name);
      } else {
        NextNewcomer(cfg, Run(cfg, before), e, o, name);
      }
    }
  }

  lemma NextTold(cfg: Config, w: World, e: Event, o: Bytes, name: Bytes)
    requires Invariant(w) && o in w.st.clients && Told(w, o, name) && !e.DisconnectEvent?
    ensures OrderCovered(w.st)
    ensures var w' := Next(cfg, w, e); o in w'.st.clients && Told(w', o, name)
  {
    hide Next, Told, React, PairOk, PlayerOk, Sorted, Entered, ReadApplication, Refusal;
    match e
    case SignOnEvent(p, g) =>
      if Refusal(cfg, w.st, ReadApplication(p)).Some? {
        RefusedUnfolded(cfg, w, p, g);
      } else {
        SignOnTold(cfg, w, p, g, o, name);
      }
    case UpdateEvent(me, p, now) =>
      if me in w.st.clients {
        UpdateTold(cfg, w, me, p, now, o, name);
      } else {
        IdleUpdate(cfg, w, me, p, now);
      }
    case ChatEvent(_, _) =>
      MinorTold(cfg, w, e, o, name);
    case QueryEvent(_, _) =>
      MinorTold(cfg, w, e, o, name);
    case OutsideEvent(_, _, _) =>
      MinorTold(cfg, w, e, o, name);
  }

  lemma NextNewcomer(cfg: Config, w: World, e: Event, o: Bytes, name: Bytes)
    requires Invariant(w) && o !in w.st.clients
    ensures OrderCovered(w.st) && (o in Next(cfg, w, e).st.clients ==> Told(Next(cfg, w, e), o, name))
  {
    hide Next, Told, React, PairOk, PlayerOk, Sorted, Entered, ReadApplication, Refusal, Settled, Sync, Peers,
      Refreshed, Mail, Answered;
    match e
    case SignOnEvent(p, g) =>
      if Refusal(cfg, w.st, ReadApplication(p)).Some? {
        RefusedUnfolded(cfg, w, p, g);
      } else {
        SignOnUnfolded(cfg, w, p, g);
        NewcomerTold(cfg, w, p, g, name);
      }
    case UpdateEvent(me, p, now) =>
      if me in w.st.clients {
        UpdateUnfolded(cfg, w, me, p, now);
      } else {
        IdleUpdate(cfg, w, me, p, now);
      }
    case DisconnectEvent =>
      DisconnectUnfolded(cfg, w);
    case ChatEvent(_, _) =>
      MinorUnfolded(cfg, w, e);
    case QueryEvent(_, _) =>
      MinorUnfolded(cfg, w, e);
    case OutsideEvent(_, _, _) =>
      MinorUnfolded(cfg, w, e);
  }

  /** Mutual visibility. Of two registered players, the one has been sent, or is about to be sent,
      exactly one SpawnCharacter for the other if they share a level, and none otherwise, if and only
      if no third player on the level goes by the same name up to the first NUL. */
  lemma {:induction false} MutualVisibility(cfg: Config, events: seq<Event>, o: Bytes, s: Bytes)
    ensures var w := Run(cfg, events);
            o in w.st.clients && s in w.st.clients && o != s ==>
              (Count(w.sent(o), CStr(s)) + Count(w.st.clients[o].inbox, CStr(s)) ==
                 (if SameLevel(w.st.clients[o], w.st.clients[s]) then 1 else 0)
               <==> Unambiguous(w.st.clients, o, s))
  {
    hide Run, Count, CStr;
    EveryoneTold(cfg, events, o, CStr(s));
    var clients := Run(cfg, events).st.clients;
    if o in clients && s in clients && o != s {
      NamesakesAlone(clients, o, s);
    }
  }

  /** A player is the only one on the level with its wire name if and only if nobody shares the name. */
  lemma NamesakesAlone(clients: map<Bytes, Session>, o: Bytes, s: Bytes)
    requires o in clients && s in clients && o != s
    ensures |Namesakes(clients, o, CStr(s))| == (if SameLevel(clients[o], clients[s]) then 1 else 0) <==>
            Unambiguous(clients, o, s)
  {
    hide CStr;
    var names := Namesakes(clients, o, CStr(s));
    var others := names - {s};
    assert others == {} <==> Unambiguous(clients, o, s) by {
      if n :| n in others {
        assert IsPeer(clients, o, n);
      }
      assert forall n :: n != s && IsPeer(clients, o, n) && CStr(n) == CStr(s) ==> n in others;
    }
    if SameLevel(clients[o], clients[s]) {
      assert names == others + {s};
    } else {
      assert names == others;
    }
  }
}
