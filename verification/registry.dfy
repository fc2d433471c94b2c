/** What every handler keeps true of the registry: it is indexed by username in the std::map
    order, and a registered player never changes name or level. */
module Registry {
  import opened Wire
  import opened History
  import opened Clients
  import opened Server

  // ---------------------------------------------------------------- the order of the map

  ghost predicate Sorted(order: seq<Bytes>)
  {
    forall i, j :: 0 <= i < j < |order| ==> Less(order[i], order[j])
  }

  /** a and b agree on their first k bytes, and then a ends, or has the smaller byte, as unsigned bytes go. */
  ghost predicate FirstDifference(a: Bytes, b: Bytes, k: nat)
  {
    k <= |a| && k < |b| && a[..k] == b[..k] && (k == |a| || (a[k] as int) % 256 < (b[k] as int) % 256)
  }

  /** The order of the map is by the first difference. */
  lemma {:induction false} LessIff(a: Bytes, b: Bytes)
    ensures Less(a, b) <==> exists k :: FirstDifference(a, b, k)
  {
    if b == [] {
    } else if a == [] {
      assert FirstDifference(a, b, 0);
    } else if a[0] != b[0] {
      UnsignedBytes(a[0], b[0]);
      if Less(a, b) {
        assert FirstDifference(a, b, 0);
      }
      if k: nat :| FirstDifference(a, b, k) {
        SameStart(a, b, k);
      }
    } else {
      LessIff(a[1..], b[1..]);
      if k: nat :| FirstDifference(a[1..], b[1..], k) {
        assert a[..k + 1] == [a[0]] + a[1..][..k] && b[..k + 1] == [b[0]] + b[1..][..k];
        assert FirstDifference(a, b, k + 1);
      }
      if k: nat :| FirstDifference(a, b, k) {
        assert k > 0;
        assert a[1..][..k - 1] == a[..k][1..] && b[1..][..k - 1] == b[..k][1..];
        assert FirstDifference(a[1..], b[1..], k - 1);
      }
    }
  }

  lemma SameStart(a: Bytes, b: Bytes, k: nat)
    requires a != [] && b != [] && FirstDifference(a, b, k)
    ensures k == 0 || a[0] == b[0]
  {
    assert k > 0 ==> a[..k][0] == a[0] && b[..k][0] == b[0];
  }

  lemma UnsignedBytes(a: Byte, b: Byte)
    ensures Unsigned(a) < Unsigned(b) <==> (a as int) % 256 < (b as int) % 256
  {
  }

  lemma {:induction false} LessIrreflexive(a: Bytes)
    ensures !Less(a, a)
  {
    if a != [] {
      LessIrreflexive(a[1..]);
    }
  }

  lemma UnsignedInjective(a: Byte, b: Byte)
    ensures Unsigned(a) == Unsigned(b) ==> a == b
  {
  }

  lemma {:induction false} LessTransitive(a: Bytes, b: Bytes, c: Bytes)
    requires Less(a, b) && Less(b, c)
    ensures Less(a, c)
  {
    if a != [] && a[0] == b[0] && b[0] == c[0] && Less(a[1..], b[1..]) && Less(b[1..], c[1..]) {
      LessTransitive(a[1..], b[1..], c[1..]);
    }
  }

  lemma {:induction false} LessTotal(a: Bytes, b: Bytes)
    ensures a == b || Less(a, b) || Less(b, a)
  {
    if a != [] && b != [] {
      UnsignedInjective(a[0], b[0]);
      LessTotal(a[1..], b[1..]);
      if a[1..] == b[1..] && a[0] == b[0] {
        assert a == [a[0]] + a[1..] && b == [b[0]] + b[1..];
      }
    }
  }

  lemma {:induction false} InsertKeySorted(order: seq<Bytes>, name: Bytes)
    requires Sorted(order)
    ensures Sorted(InsertKey(order, name))
  {
    if order != [] {
      var first, rest := order[0], order[1..];
      if Less(name, first) {
        forall j | 0 <= j < |order|
          ensures Less(name, order[j])
        {
          if j > 0 {
            LessTransitive(name, first, order[j]);
          }
        }
      } else if name != first {
        LessTotal(name, first);
        InsertKeySorted(rest, name);
        InsertKeyMembers(rest, name);
        var longer := InsertKey(rest, name);
        forall j | 0 <= j < |longer|
          ensures Less(first, longer[j])
        {
          assert longer[j] in longer;
          if longer[j] != name {
            var k :| 0 <= k < |rest| && rest[k] == longer[j];
            assert order[k + 1] == rest[k];
          }
        }
      }
    }
  }

  ghost predicate Distinct(names: seq<Bytes>)
  {
    forall i, j :: 0 <= i < j < |names| ==> names[i] != names[j]
  }

  lemma SortedDistinct(order: seq<Bytes>)
    requires Sorted(order)
    ensures Distinct(order)
  {
    forall i, j | 0 <= i < j < |order|
      ensures order[i] != order[j]
    {
      LessIrreflexive(order[i]);
      assert Less(order[i], order[j]);
    }
  }

  lemma {:induction false} PeersDistinct(clients: map<Bytes, Session>, order: seq<Bytes>, me: Bytes)
    requires me in clients && forall n :: n in order ==> n in clients
    requires Distinct(order)
    ensures Distinct(Peers(clients, order, me))
  {
    if order != [] {
      var front := order[..|order| - 1];
      PeersDistinct(clients, front, me);
      var last := order[|order| - 1];
      assert last !in front;
    }
  }

  /** The peers come in registry order. With who they are, this says all about the list. */
  lemma {:induction false} PeersSorted(clients: map<Bytes, Session>, order: seq<Bytes>, c: Session)
    requires Sorted(order) && forall n :: n in order ==> n in clients
    ensures Sorted(PeersOf(clients, order, c))
  {
    hide Less;
    if order != [] {
      var front, last := order[..|order| - 1], order[|order| - 1];
      PeersSorted(clients, front, c);
      var names := PeersOf(clients, front, c);
      forall i | 0 <= i < |names|
        ensures Less(names[i], last)
      {
        assert names[i] in front;
        var k :| 0 <= k < |front| && front[k] == names[i];
        assert Less(order[k], order[|order| - 1]);
      }
    }
  }

  /** A sorted list is determined by its elements. */
  lemma {:induction false} SortedUnique(a: seq<Bytes>, b: seq<Bytes>)
    requires Sorted(a) && Sorted(b) && forall n :: n in a <==> n in b
    ensures a == b
  {
    hide Less;
    NoMembers(a);
    NoMembers(b);
    if a != [] && b != [] {
      SortedLast(a, b);
      SortedDistinct(a);
      SortedDistinct(b);
      WithoutLast(a);
      WithoutLast(b);
      var front, others := a[..|a| - 1], b[..|b| - 1];
      assert Sorted(front) && Sorted(others);
      forall n
        ensures n in front <==> n in others
      {
        assert n in a <==> n in b;
      }
      SortedUnique(front, others);
      assert a == a[..|a| - 1] + [a[|a| - 1]] && b == b[..|b| - 1] + [b[|b| - 1]];
    }
  }

  lemma WithoutLast(a: seq<Bytes>)
    requires Distinct(a) && a != []
    ensures forall n :: n in a[..|a| - 1] <==> n in a && n != a[|a| - 1]
  {
    assert a == a[..|a| - 1] + [a[|a| - 1]];
  }

  lemma SortedLast(a: seq<Bytes>, b: seq<Bytes>)
    requires Sorted(a) && Sorted(b) && a != [] && b != [] && forall n :: n in a <==> n in b
    ensures a[|a| - 1] == b[|b| - 1]
  {
    hide Less;
    var x, y := a[|a| - 1], b[|b| - 1];
    assert x in b && y in a;
    if x != y {
      var i :| 0 <= i < |b| && b[i] == x;
      var j :| 0 <= j < |a| && a[j] == y;
      assert Less(b[i], b[|b| - 1]) && Less(a[j], a[|a| - 1]);
      LessTransitive(x, y, x);
      LessIrreflexive(x);
      assert false;
    }
  }

  // ---------------------------------------------------------------- the invariant

  ghost predicate WellFormed(st: State)
  {
    && OrderCovered(st)
    && Sorted(st.order)
    && forall n :: n in st.clients ==> Entered(st.clients[n], n)
  }

  ghost predicate Entered(c: Session, n: Bytes)
  {
    c.username == n && c.team == n && |n| <= 127 && c.signedOn && |c.levelPath| >= 2
  }

  /** What never changes after sign-on. */
  ghost predicate SameIdentity(a: Session, b: Session)
  {
    && a.username == b.username && a.team == b.team && a.character == b.character
    && a.levelName == b.levelName && a.levelPath == b.levelPath && a.signedOn == b.signedOn
  }

  /** Nothing but the inbox and the saved position differs. */
  ghost predicate SameButInbox(a: Session, b: Session)
  {
    && SameIdentity(a, b)
    && a.vars == b.vars && a.changed == b.changed
    && a.history == b.history && a.historyIndex == b.historyIndex && a.keys == b.keys
    && a.deathChanged == b.deathChanged && a.timeOfDeath == b.timeOfDeath
  }

  lemma DecodedIdentity(c: Session, p: Packet)
    ensures SameIdentity(c, Decoded(c, p))
    ensures Decoded(c, p).inbox == c.inbox && Decoded(c, p).keys == c.keys
    ensures Decoded(c, p).deathChanged == c.deathChanged && Decoded(c, p).timeOfDeath == c.timeOfDeath
  {
  }

  lemma AftermathIdentity(c: Session, now: int)
    ensures var after := Aftermath(c, now).0;
            SameIdentity(c, after) && after.keys == c.keys &&
            after.history == c.history && after.historyIndex == c.historyIndex
  {
    hide Dead, SelfMessage, DiedNotice, StoreAll, Assigned;
  }

  lemma RefreshedIdentity(c: Session, p: Packet, now: int)
    ensures var after := Refreshed(c, p, now).0;
            SameIdentity(c, after) && after.keys == c.keys
  {
    DecodedIdentity(c, p);
    AftermathIdentity(Decoded(c, p).(inbox := []), now);
  }

  lemma BroadcastEffect(clients: map<Bytes, Session>, me: Bytes, message: Bytes)
    requires me in clients
    ensures var after := Broadcast(clients, me, message);
            && after.Keys == clients.Keys
            && after[me] == clients[me]
            && forall n :: n in clients ==> SameButInbox(clients[n], after[n])
  {
  }

  lemma SettledEffect(clients: map<Bytes, Session>, me: Bytes, p: Packet, now: int)
    requires me in clients
    ensures var after := Settled(clients, me, p, now);
            && after.Keys == clients.Keys
            && after[me] == Refreshed(clients[me], p, now).0
            && SameIdentity(clients[me], after[me]) && after[me].keys == clients[me].keys
            && forall n :: n in clients && n != me ==> SameButInbox(clients[n], after[n])
  {
    hide Refreshed, FateAt, DiedNotice;
    var refreshed := Refreshed(clients[me], p, now).0;
    RefreshedIdentity(clients[me], p, now);
    BroadcastEffect(clients[me := refreshed], me, DiedNotice(clients[me]));
  }

  lemma UpdateEffect(st: State, me: Bytes, p: Packet, now: int)
    requires OrderCovered(st) && me in st.clients
    ensures var after := Update(st, me, p, now).st;
            && after.order == st.order
            && after.clients.Keys == st.clients.Keys
            && SameIdentity(st.clients[me], after.clients[me])
            && forall n :: n in st.clients && n != me ==> SameButInbox(st.clients[n], after.clients[n])
  {
    SettledEffect(st.clients, me, p, now);
  }

  lemma IntroducedEffect(clients: map<Bytes, Session>, c: Session)
    requires c.username in clients && clients[c.username] == c
    ensures var after := Introduced(clients, c);
            && after.Keys == clients.Keys
            && after[c.username] == c
            && forall n :: n in clients ==> SameButInbox(clients[n], after[n])
  {
    hide EnteredNotice, SpawnMessage;
    BroadcastEffect(clients, c.username, EnteredNotice(c));
    BroadcastEffect(Broadcast(clients, c.username, EnteredNotice(c)), c.username, SpawnMessage(c, c.team));
  }

  lemma AdmittedName(cfg: Config, a: Application, g: Garbage)
    ensures Admitted(cfg, a, g).username == a.username
  {
  }

  lemma SignOnEffect(cfg: Config, st: State, p: Packet, g: Garbage)
    requires OrderCovered(st) && Refusal(cfg, st, ReadApplication(p)).None?
    ensures var a := ReadApplication(p);
            var after := SignOn(cfg, st, p, g).st;
            && after.order == InsertKey(st.order, a.username)
            && after.clients.Keys == st.clients.Keys + {a.username}
            && after.clients[a.username] == Admitted(cfg, a, g)
            && forall n :: n in st.clients && n != a.username ==> SameButInbox(st.clients[n], after.clients[n])
  {
    hide ReadApplication, Introduced, InsertKey, WelcomeMessage, Admitted, Refusal, SpawnMessages, Peers;
    var c := Admitted(cfg, ReadApplication(p), g);
    AdmittedName(cfg, ReadApplication(p), g);
    IntroducedEffect(Registered(st, c).clients, c);
  }

  lemma ChatEffect(st: State, me: Bytes, p: Packet)
    requires me in st.clients
    ensures var after := Chat(st, me, p);
            && after.order == st.order
            && after.clients.Keys == st.clients.Keys
            && forall n :: n in st.clients ==> SameButInbox(st.clients[n], after.clients[n])
  {
    BroadcastEffect(st.clients, me, ChatMessage(st.clients[me].username, ReadString(p, AfterString(p, 1))));
  }

  lemma SignOnRefused(cfg: Config, st: State, p: Packet, g: Garbage)
    requires OrderCovered(st) && Refusal(cfg, st, ReadApplication(p)).Some?
    ensures SignOn(cfg, st, p, g).st == st
  {
    hide ReadApplication, Refusal, Admitted;
  }

  lemma AdmittedEntered(cfg: Config, st: State, p: Packet, g: Garbage)
    requires Refusal(cfg, st, ReadApplication(p)).None?
    ensures var a := ReadApplication(p);
            a.username !in st.clients || st.clients[a.username].username != a.username
    ensures Entered(Admitted(cfg, ReadApplication(p), g), ReadApplication(p).username)
  {
    assert |ReadApplication(p).username| <= 127;
    hide ReadApplication;
  }

  lemma SignOnWellFormed(cfg: Config, st: State, p: Packet, g: Garbage)
    requires WellFormed(st)
    ensures var after := SignOn(cfg, st, p, g).st;
            && WellFormed(after)
            && (forall n :: n in st.clients ==> n in after.clients && SameIdentity(st.clients[n], after.clients[n]))
  {
    hide ReadApplication, InsertKey, Admitted, Refusal, SignOn;
    var name := ReadApplication(p).username;
    if Refusal(cfg, st, ReadApplication(p)).Some? {
      SignOnRefused(cfg, st, p, g);
    } else {
      InsertKeySorted(st.order, name);
      InsertKeyMembers(st.order, name);
      SignOnEffect(cfg, st, p, g);
      AdmittedEntered(cfg, st, p, g);
    }
  }

  lemma QueryEffect(cfg: Config, st: State, who: Bytes, p: Packet)
    requires OrderCovered(st) && who in st.clients
    ensures var after := Query(cfg, st, who, p).st;
            && after.order == st.order
            && after.clients.Keys == st.clients.Keys
            && forall n :: n in st.clients ==>
                 SameButInbox(st.clients[n], after.clients[n]) && after.clients[n].inbox == st.clients[n].inbox
  {
    hide Answers;
  }

  lemma OverheardEffect(clients: map<Bytes, Session>, c: Session, message: Bytes)
    ensures var after := Overheard(clients, c, message);
            after.Keys == clients.Keys && forall n :: n in clients ==> SameButInbox(clients[n], after[n])
  {
  }

  lemma OutsideEffect(st: State, c: Session, p: Packet, now: int)
    requires OrderCovered(st)
    ensures var after := OutsideState(st, c, p, now);
            && after.order == st.order
            && after.clients.Keys == st.clients.Keys
            && forall n :: n in st.clients ==> SameButInbox(st.clients[n], after.clients[n])
  {
    hide Refreshed, FateAt, ChatMessage, DiedNotice, ReadString, Sync, PeersOf, Overheard;
    OverheardEffect(st.clients, c, DiedNotice(c));
    OverheardEffect(st.clients, c, ChatMessage(c.username, ReadString(p, AfterString(p, 1))));
  }

  /** The identity of every player survives every event but a disconnect, and the registry invariant with it. */
  lemma ReactWellFormed(cfg: Config, st: State, e: Event)
    requires WellFormed(st)
    ensures var after := React(cfg, st, e).st;
            && WellFormed(after)
            && (!e.DisconnectEvent? ==>
                  forall n :: n in st.clients ==> n in after.clients && SameIdentity(st.clients[n], after.clients[n]))
  {
    hide SignOn, Update, Chat, Query, OutsideState;
    match e
    case DisconnectEvent =>
    case QueryEvent(who, p) =>
      if who in st.clients {
        QueryEffect(cfg, st, who, p);
      }
    case OutsideEvent(c, p, now) =>
      OutsideEffect(st, c, p, now);
    case SignOnEvent(p, g) =>
      SignOnWellFormed(cfg, st, p, g);
    case UpdateEvent(who, p, now) =>
      if who in st.clients {
        UpdateEffect(st, who, p, now);
      }
    case ChatEvent(who, p) =>
      if who in st.clients {
        ChatEffect(st, who, p);
      }
  }

  lemma ReactCovered(cfg: Config, st: State, e: Event)
    requires OrderCovered(st)
    ensures OrderCovered(React(cfg, st, e).st)
  {
    hide Sync, PeersOf, Refreshed, FateAt, ReadString, Answers, ReadApplication;
    if e.SignOnEvent? {
      InsertKeyMembers(st.order, ReadApplication(e.packet).username);
    }
  }

  /** What the first byte of a packet selects, on a connection without a client or with that of a registered
      player: 0 signs on, 5 is an update, 1 a chat line, and 7 may save the position. */
  lemma FirstByte(cfg: Config, st: State, me: Option<Bytes>, p: Packet, now: int, g: Garbage)
    requires OrderCovered(st) && (me.Some? ==> me.value in st.clients)
    ensures var e, kind := EventOf(me, p, now, g), p.At(0);
            if me.None? then
              if kind == 0 then e.Some? && React(cfg, st, e.value) == SignOn(cfg, st, p, g) else e.None?
            else
              && e.Some?
              && React(cfg, st, e.value) ==
                 if kind == 5 then Update(st, me.value, p, now)
                 else if kind == 1 then Reaction(Chat(st, me.value, p), [])
                 else
                   var c := st.clients[me.value];
                   Reaction(State(st.clients[me.value := Saved(cfg, c, kind)], st.order),
                            Answers(cfg, st, Some(c), kind))
  {
    hide SignOn, Update, Chat, Saved, Answers;
  }

  /** The step of a sign-on that is not refused. */
  lemma SignOnAdmits(cfg: Config, st: State, p: Packet, g: Garbage)
    requires OrderCovered(st) && Refusal(cfg, st, ReadApplication(p)).None?
    ensures var c := Admitted(cfg, ReadApplication(p), g);
            var joined := Registered(st, c);
            && OrderCovered(joined) && c.username in joined.clients
            && SignOn(cfg, st, p, g) ==
               Reaction(State(Introduced(joined.clients, c), joined.order),
                        [WelcomeMessage(cfg, c)] +
                        SpawnMessages(joined.clients, Peers(joined.clients, joined.order, c.username)))
  {
    hide ReadApplication, Refusal, Admitted, Introduced, WelcomeMessage, SpawnMessages, Peers, InsertKey;
    InsertKeyMembers(st.order, Admitted(cfg, ReadApplication(p), g).username);
  }

  /** The registry after client_disconnected for any client. */
  const AFTER_DISCONNECT := EMPTY

  /** A connection whose sign-on was refused holds a client with an empty level path, which no
      registered player shares: whatever it sends afterwards, the registry stays as it is, and so does
      the level path. */
  lemma OutsiderReachesNobody(st: State, c: Session, p: Packet, now: int)
    requires WellFormed(st) && c.levelPath == []
    ensures OutsideState(st, c, p, now) == st
    ensures UpdateOutside(st, c, p, now).out == Refreshed(c, p, now).1
    ensures UpdateOutside(st, c, p, now).c.levelPath == [] && ChatOutside(st, c, p).c.levelPath == []
  {
    hide Sorted, Refreshed, ChatMessage, DiedNotice, FateAt;
    forall n | n in st.clients
      ensures !SameLevel(st.clients[n], c)
    {
      assert Entered(st.clients[n], n);
    }
    forall message: Bytes
      ensures Overheard(st.clients, c, message) == st.clients
    {
    }
    RefreshedIdentity(c, p, now);
    NoMembers(PeersOf(st.clients, st.order, Refreshed(c, p, now).0));
  }

  lemma NoMembers(names: seq<Bytes>)
    ensures (forall n :: n !in names) ==> names == []
  {
    if names != [] {
      assert names[0] in names;
    }
  }

  /** For a registered player the two ways to ask for peers agree. */
  lemma {:induction false} PeersOfRegistered(clients: map<Bytes, Session>, order: seq<Bytes>, me: Bytes)
    requires me in clients && (forall n :: n in order ==> n in clients)
    requires forall n :: n in clients ==> clients[n].username == n
    ensures PeersOf(clients, order, clients[me]) == Peers(clients, order, me)
  {
    if order != [] {
      PeersOfRegistered(clients, order[..|order| - 1], me);
    }
  }
}
