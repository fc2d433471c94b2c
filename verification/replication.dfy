/** The delta-replication protocol over whole runs: what an observer can rebuild of a peer from
    the bytes it was sent, against the peer's current variables. */
module Replication {
  import opened Wire
  import opened History
  import opened Clients
  import opened Server
  import opened Registry

  // ---------------------------------------------------------------- reading the messages back

  function Merge(replica: map<Byte, Value>, rs: seq<Record>): map<Byte, Value>
    decreases |rs|
  {
    if rs == [] then replica
    else Merge(if rs[0].value.Some? then replica[rs[0].tag := rs[0].value.value] else replica, rs[1..])
  }

  /** A game client's reaction to one message, for the peer it knows by `name`. */
  function Learn(replica: map<Byte, Value>, m: Bytes, name: Bytes): map<Byte, Value>
  {
    if m != [] && m[0] == UPDATE_CHARACTER && ReadString(Whole(m), 1) == name then
      Merge(replica, SwapAll(Records(PeerGrammar, Whole(m), 2 + |name|)))
    else replica
  }

  function Learns(replica: map<Byte, Value>, ms: seq<Bytes>, name: Bytes): map<Byte, Value>
  {
    if ms == [] then replica
    else Learn(Learns(replica, ms[..|ms| - 1], name), ms[|ms| - 1], name)
  }

  /** The replica built from everything a connection was sent. */
  function Replica(sent: seq<Bytes>, name: Bytes): map<Byte, Value>
  {
    Learns(map[], sent, name)
  }

  lemma {:induction false} LearnsConcat(replica: map<Byte, Value>, a: seq<Bytes>, b: seq<Bytes>, name: Bytes)
    ensures Learns(replica, a + b, name) == Learns(Learns(replica, a, name), b, name)
  {
    hide Learn;
    if b == [] {
      assert a + b == a;
    } else {
      assert (a + b)[..|a + b| - 1] == a + b[..|b| - 1];
      LearnsConcat(replica, a, b[..|b| - 1], name);
    }
  }

  lemma LearnsOne(replica: map<Byte, Value>, m: Bytes, name: Bytes)
    ensures Learns(replica, [m], name) == Learn(replica, m, name)
  {
    hide Learn;
    var before := [m][..0];
    assert before == [];
    assert Learns(replica, before, name) == replica;
  }

  predicate Quiet(m: Bytes)
  {
    m != [] && m[0] != UPDATE_CHARACTER
  }

  lemma {:induction false} LearnsQuiet(replica: map<Byte, Value>, ms: seq<Bytes>, name: Bytes)
    requires forall m :: m in ms ==> Quiet(m)
    ensures Learns(replica, ms, name) == replica
  {
    if ms != [] {
      assert Quiet(ms[|ms| - 1]);
      LearnsQuiet(replica, ms[..|ms| - 1], name);
    }
  }

  /** The message for a peer is understood as exactly the listed variables with their values. */
  lemma LearnUpdate(replica: map<Byte, Value>, c: Session, types: seq<Byte>, name: Bytes)
    requires StrLen(c.username) <= 127
    ensures Learn(replica, UpdateMessage(c, types), name) ==
            if CStr(c.username) == name then Merge(replica, RecordsFor(PeerGrammar, c.vars, types)) else replica
  {
    hide Encode, Records, Merge, EncodeString, RecordsFor, InGrammar, StrLen, CStr, RecordOf, ReadString, SwapAll;
    var rs := RecordsFor(PeerGrammar, c.vars, types);
    var m := UpdateMessage(c, types);
    var i := 2 + |CStr(c.username)|;
    HeadRead(m, UPDATE_CHARACTER, c.username, Encode(rs));
    RecordsForInGrammar(PeerGrammar, c.vars, types);
    RecordsOfEncode(PeerGrammar, Whole(m), i, rs);
    SwapAllTwice(rs);
  }

  lemma RecordsForInGrammar(g: Grammar, vars: Vars, types: seq<Byte>)
    ensures forall r :: r in RecordsFor(g, vars, types) ==> InGrammar(g, r)
  {
    hide InGrammar, RecordOf;
  }

  /** Variables that travel with a value. */
  predicate Carried(t: Byte)
  {
    0 <= t < 28 && t != REMOVE_BLOOD
  }

  lemma {:induction false} MergeRecordsFor(replica: map<Byte, Value>, vars: Vars, types: seq<Byte>, t: Byte)
    requires Carried(t)
    ensures var after := Merge(replica, RecordsFor(PeerGrammar, vars, types));
            && (t in types ==> t in after && after[t] == vars[t])
            && (t !in types ==> (t in after <==> t in replica) && (t in replica ==> after[t] == replica[t]))
    decreases |types|
  {
    if types != [] {
      var rs := RecordsFor(PeerGrammar, vars, types);
      var r := rs[0];
      var next := if r.value.Some? then replica[r.tag := r.value.value] else replica;
      assert rs[1..] == RecordsFor(PeerGrammar, vars, types[1..]);
      MergeRecordsFor(next, vars, types[1..], t);
    }
  }

  // ---------------------------------------------------------------- the ledger of a run

  /** What an observer knows of a sender. `pos` is the update its key names, `base` the update
      named when the key was first set, `timely` whether the lag was at most nine at each of its
      updates since, `revived` the variables a revive rewrote after they were last sent, `lost` those
      the sender touched before a message that should have named them and did not. */
  datatype Link = Link(pos: nat, base: nat, timely: bool, revived: set<Byte>, lost: set<Byte>)

  /** The registry, and per player everything its connection was sent, all its non-empty updates,
      and its links to others. */
  datatype World = World(st: State, sent: Bytes -> seq<Bytes>, full: Bytes -> seq<seq<Byte>>,
                         links: (Bytes, Bytes) -> Option<Link>)

  const START := World(EMPTY, n => [], n => [], (o, s) => None)

  function FullAfter(full: seq<seq<Byte>>, p: Packet): seq<seq<Byte>>
  {
    var rs := Records(PeerGrammar, p, 1);
    if rs == [] then full else full + [Tags(rs)]
  }

  function RevivedVars(fate: Fate): set<Byte>
  {
    if fate == Fate.Revived then Assigned(REVIVE) else {}
  }

  /** The sender rewrote variables without an update. */
  function Stale(link: Option<Link>, ts: set<Byte>): Option<Link>
  {
    if link.None? then None else Some(link.value.(revived := link.value.revived + ts))
  }

  /** The types of the updates after number `pos`. */
  function TypesSince(full: seq<seq<Byte>>, pos: nat): set<Byte>
  {
    var since := if pos < |full| then Flatten(full[pos + 1..]) else [];
    set t | t in since
  }

  /** The observer's own update reaches the sender's turn in the peer loop. */
  function Observed(link: Option<Link>, full: seq<seq<Byte>>): Option<Link>
  {
    if full == [] then link
    else if link.None? then Some(Link(|full| - 1, |full| - 1, true, {}, {}))
    else
      var l := link.value;
      var timely := l.timely && |full| - 1 - l.pos <= 9;
      var types := Missing(Window(full), l.pos % KEYS);
      if types == [] then Some(l.(timely := timely))
      else
        var sent := set t | t in types;
        Some(Link(|full| - 1, l.base, timely, l.revived - sent, l.lost + TypesSince(full, l.pos) - sent))
  }

  predicate IsPeer(clients: map<Bytes, Session>, o: Bytes, s: Bytes)
  {
    o in clients && s in clients && o != s && SameLevel(clients[o], clients[s])
  }

  function Next(cfg: Config, w: World, e: Event): World
    requires OrderCovered(w.st)
  {
    var r := React(cfg, w.st, e);
    match e
    case SignOnEvent(p, _) =>
      var a := ReadApplication(p);
      if Refusal(cfg, w.st, a).Some? then w.(st := r.st)
      else World(r.st,
                 n => if n == a.username then r.out else w.sent(n),
                 n => if n == a.username then [] else w.full(n),
                 (o, s) => if o == a.username || s == a.username then None else w.links(o, s))
    case UpdateEvent(me, p, now) =>
      if me !in w.st.clients then w
      else
        var fate := FateAt(w.st.clients[me], p, now);
        World(r.st,
              n => if n == me then w.sent(n) + r.out else w.sent(n),
              n => if n == me then FullAfter(w.full(n), p) else w.full(n),
              (o, s) => if o == me && IsPeer(w.st.clients, o, s) then Observed(w.links(o, s), w.full(s))
                        else if s == me then Stale(w.links(o, s), RevivedVars(fate))
                        else w.links(o, s))
    case QueryEvent(me, _) => w.(st := r.st, sent := n => if n == me then w.sent(n) + r.out else w.sent(n))
    case ChatEvent(_, _) => w.(st := r.st)
    case OutsideEvent(_, _, _) => w.(st := r.st)
    case DisconnectEvent => w.(st := r.st)
  }

  function Run(cfg: Config, events: seq<Event>): (w: World)
    ensures OrderCovered(w.st)
  {
    if events == [] then START
    else
      var before := Run(cfg, events[..|events| - 1]);
      var e := events[|events| - 1];
      ReactCovered(cfg, before.st, e);
      Next(cfg, before, e)
  }

  // ---------------------------------------------------------------- the invariant

  ghost predicate Touched(full: seq<seq<Byte>>, from: int, to: int, t: Byte)
  {
    exists i :: 0 <= i < |full| && from <= i < to && t in full[i]
  }

  /** A client's stored history is the window on its full history. */
  ghost predicate Recorded(c: Session, full: seq<seq<Byte>>)
  {
    && c.history == Window(full) && c.historyIndex == |full| % KEYS
    && forall i :: 0 <= i < |full| ==> full[i] != []
  }

  ghost predicate Linked(keys: map<Bytes, int>, s: Bytes, full: seq<seq<Byte>>, link: Option<Link>)
  {
    && (s in keys <==> link.Some?)
    && (link.Some? ==> link.value.base <= link.value.pos < |full| && keys[s] == link.value.pos % KEYS)
  }

  /** Sent after the baseline, neither pending nor lost nor revived since: the replica has the current value. */
  ghost predicate Agrees(vars: Vars, full: seq<seq<Byte>>, l: Link, replica: map<Byte, Value>)
  {
    forall t: Byte ::
      (Carried(t) && Touched(full, l.base + 1, l.pos + 1, t) && !Touched(full, l.pos + 1, |full|, t) &&
        t !in l.revived + l.lost)
      ==> t in replica && replica[t] == vars[t]
  }

  /** No third player on the level goes by the same name up to the first NUL. */
  ghost predicate Unambiguous(clients: map<Bytes, Session>, o: Bytes, s: Bytes)
  {
    forall n :: n != s && IsPeer(clients, o, n) ==> CStr(n) != CStr(s)
  }

  ghost predicate PairOk(w: World, o: Bytes, s: Bytes)
    requires o in w.st.clients && s in w.st.clients
  {
    && Linked(w.st.clients[o].keys, s, w.full(s), w.links(o, s))
    && (w.links(o, s).Some? && w.links(o, s).value.timely ==> w.links(o, s).value.lost == {})
    && (w.links(o, s).Some? && Unambiguous(w.st.clients, o, s) ==>
          Agrees(w.st.clients[s].vars, w.full(s), w.links(o, s).value, Replica(w.sent(o), CStr(s))))
  }

  ghost predicate PlayerOk(w: World, n: Bytes)
    requires n in w.st.clients
  {
    && Recorded(w.st.clients[n], w.full(n))
    && (forall m :: m in w.st.clients[n].inbox ==> Quiet(m))
    && (forall u :: u in w.st.clients[n].keys ==> u in w.st.clients)
  }

  ghost predicate Invariant(w: World)
  {
    && WellFormed(w.st)
    && (forall n :: n in w.st.clients ==> PlayerOk(w, n))
    && (forall o, s :: IsPeer(w.st.clients, o, s) ==> PairOk(w, o, s))
  }

  // ---------------------------------------------------------------- the sender's side

  lemma TouchedAppend(full: seq<seq<Byte>>, ts: seq<Byte>, from: int, to: int, t: Byte)
    requires to <= |full|
    ensures Touched(full + [ts], from, to, t) <==> Touched(full, from, to, t)
    ensures from <= |full| ==>
            (Touched(full + [ts], from, |full| + 1, t) <==> Touched(full, from, |full|, t) || t in ts)
  {
    var longer := full + [ts];
    assert longer[|full|] == ts;
    assert forall i :: 0 <= i < |full| ==> longer[i] == full[i];
    if from <= |full| && Touched(full, from, |full|, t) {
      var i :| 0 <= i < |full| && from <= i < |full| && t in full[i];
      assert t in longer[i];
    }
    if Touched(full, from, to, t) {
      var i :| 0 <= i < |full| && from <= i < to && t in full[i];
      assert t in longer[i];
    }
  }

  /** What one update does to the sender itself. */
  lemma SenderWrites(c: Session, full: seq<seq<Byte>>, p: Packet, now: int)
    requires Recorded(c, full) && forall m :: m in c.inbox ==> Quiet(m)
    ensures var after := Refreshed(c, p, now);
            && Recorded(after.0, FullAfter(full, p))
            && (forall m :: m in after.0.inbox ==> Quiet(m))
            && (forall m :: m in after.1 ==> Quiet(m))
            && forall t: Byte ::
                 (Carried(t) && t !in Tags(Records(PeerGrammar, p, 1)) && t !in RevivedVars(FateAt(c, p, now)))
                 ==> after.0.vars[t] == c.vars[t]
  {
    var decoded := Decoded(c, p);
    DecodeWrites(c, full, p);
    AftermathWrites(decoded.(inbox := []), now);
    FateIgnoresInbox(decoded, now);
    DecodedIdentity(c, p);
    var drained := Reverse(decoded.inbox);
    assert forall i :: 0 <= i < |drained| ==> drained[i] in decoded.inbox;
    hide Decoded, Aftermath, FateOf, Recorded, Records, FullAfter, Quiet;
  }

  lemma FateIgnoresInbox(c: Session, now: int)
    ensures FateOf(c.(inbox := []), now) == FateOf(c, now)
  {
    hide Dead;
  }

  /** The revive leaves each of its variables with the value it assigns. */
  lemma HealedStored(vars: Vars, t: Byte, v: Value)
    requires 0 <= t < 28 && RawRecord(t, Some(v)) in REVIVE
    ensures StoreAll(vars, REVIVE)[t] == v
  {
    var i :| 0 <= i < |REVIVE| && REVIVE[i] == RawRecord(t, Some(v));
    assert forall j, k :: 0 <= j < k < |REVIVE| ==> REVIVE[j].tag != REVIVE[k].tag;
    StoreAllLast(vars, REVIVE, i);
  }

  /** Right after a revive each of its variables has the value it assigns. */
  lemma RevivedHealed(c: Session, p: Packet, now: int, t: Byte, v: Value)
    requires FateAt(c, p, now) == Fate.Revived && Carried(t) && RawRecord(t, Some(v)) in REVIVE
    ensures Refreshed(c, p, now).0.vars[t] == v
  {
    hide Decoded, FateOf, Aftermath, REVIVE, StoreAll;
    var decoded := Decoded(c, p);
    FateIgnoresInbox(decoded, now);
    HealedStored(decoded.vars, t, v);
    RevivedAftermath(decoded.(inbox := []), now, t);
  }

  lemma RevivedAftermath(c: Session, now: int, t: Byte)
    requires FateOf(c, now) == Fate.Revived && Carried(t)
    ensures Aftermath(c, now).0.vars[t] == StoreAll(c.vars, REVIVE)[t]
  {
    hide FateOf, StoreAll, SelfMessage;
  }

  lemma DecodeWrites(c: Session, full: seq<seq<Byte>>, p: Packet)
    requires Recorded(c, full)
    ensures Recorded(Decoded(c, p), FullAfter(full, p))
    ensures forall t: Byte :: Carried(t) && t !in Tags(Records(PeerGrammar, p, 1)) ==>
              Decoded(c, p).vars[t] == c.vars[t]
  {
    var rs := Records(PeerGrammar, p, 1);
    hide Records, StoreAll, Window, Pushed, NextKey;
    if rs != [] {
      WindowPush(full, Tags(rs));
      assert Tags(rs) != [];
    }
    forall t: Byte | Carried(t) && t !in Tags(rs)
      ensures StoreAll(c.vars, rs)[t] == c.vars[t]
    {
      AssignedAreTags(rs);
      StoreAllUntouched(c.vars, rs, t);
    }
  }

  lemma AftermathWrites(c: Session, now: int)
    requires c.inbox == []
    ensures var after := Aftermath(c, now);
            && after.0.history == c.history && after.0.historyIndex == c.historyIndex
            && (forall m :: m in after.0.inbox ==> Quiet(m))
            && (forall m :: m in after.1 ==> Quiet(m))
            && forall t: Byte :: Carried(t) && t !in RevivedVars(FateOf(c, now)) ==> after.0.vars[t] == c.vars[t]
  {
    hide FateOf, Assigned, StoreAll, RecordsFor, Encode, EncodeString, Select;
    if FateOf(c, now) == Fate.Revived {
      forall t: Byte | Carried(t) && t !in Assigned(REVIVE)
        ensures Aftermath(c, now).0.vars[t] == c.vars[t]
      {
        StoreAllUntouched(c.vars, REVIVE, t);
      }
    }
  }

  /** Agreement survives the sender's own update: what it touches becomes pending, what it
      revives becomes excepted. */
  lemma AgreesAfterWrite(vars: Vars, vars': Vars, full: seq<seq<Byte>>, p: Packet, l: Link,
                         ts: set<Byte>, replica: map<Byte, Value>)
    requires Agrees(vars, full, l, replica) && l.pos < |full|
    requires forall t: Byte :: Carried(t) && t !in Tags(Records(PeerGrammar, p, 1)) && t !in ts ==> vars'[t] == vars[t]
    ensures Agrees(vars', FullAfter(full, p), l.(revived := l.revived + ts), replica)
  {
    var rs := Records(PeerGrammar, p, 1);
    var full' := FullAfter(full, p);
    hide Records, Touched, Carried;
    forall t: Byte | Carried(t) && Touched(full', l.base + 1, l.pos + 1, t) &&
      !Touched(full', l.pos + 1, |full'|, t) && t !in l.revived + ts + l.lost
      ensures t in replica && replica[t] == vars'[t]
    {
      if rs != [] {
        TouchedAppend(full, Tags(rs), l.base + 1, l.pos + 1, t);
        TouchedAppend(full, Tags(rs), l.pos + 1, |full|, t);
      }
    }
  }

  // ---------------------------------------------------------------- the observer's side

  ghost predicate EqualAt(a: map<Bytes, int>, b: map<Bytes, int>, u: Bytes)
  {
    (u in a <==> u in b) && (u in a ==> a[u] == b[u])
  }

  /** The peer loop touches each peer's key once, as if it were the only peer. */
  lemma {:induction false} SyncKeys(clients: map<Bytes, Session>, names: seq<Bytes>, keys: map<Bytes, int>, u: Bytes)
    requires forall n :: n in names ==> n in clients && clients[n].username == n
    requires Distinct(names)
    ensures u !in names ==> EqualAt(Sync(clients, names, keys).0, keys, u)
    ensures u in names ==> EqualAt(Sync(clients, names, keys).0, SyncOne(keys, clients[u]).0, u)
  {
    hide UpdateMessage, Missing, LastKey;
    if names != [] {
      var front, last := names[..|names| - 1], names[|names| - 1];
      SyncKeys(clients, front, keys, u);
      assert last !in front;
      assert u in names <==> u in front || u == last;
    }
  }

  /** Nor do the messages about other peers disturb what is learnt about one of them. */
  lemma {:induction false} SyncLearns(clients: map<Bytes, Session>, names: seq<Bytes>, keys: map<Bytes, int>,
                                      s: Bytes, replica: map<Byte, Value>)
    requires forall n :: n in names ==> n in clients && clients[n].username == n && StrLen(n) <= 127
    requires Distinct(names)
    requires forall n :: n in names && n != s ==> CStr(n) != CStr(s)
    ensures Learns(replica, Sync(clients, names, keys).1, CStr(s)) ==
            if s in names then Learns(replica, SyncOne(keys, clients[s]).1, CStr(s)) else replica
  {
    hide CStr, Learn;
    if names != [] {
      var front, last := names[..|names| - 1], names[|names| - 1];
      assert last !in front;
      SyncLearns(clients, front, keys, s, replica);
      var (keys1, out) := Sync(clients, front, keys);
      var more := SyncOne(keys1, clients[last]).1;
      LearnsConcat(replica, out, more, CStr(s));
      SyncKeys(clients, front, keys, last);
      SyncOneLocal(keys1, keys, clients[last]);
      if last != s {
        OtherNameIgnored(Learns(replica, out, CStr(s)), keys1, clients[last], CStr(s));
      }
    }
  }

  lemma SyncOneLocal(a: map<Bytes, int>, b: map<Bytes, int>, peer: Session)
    requires EqualAt(a, b, peer.username)
    ensures SyncOne(a, peer).1 == SyncOne(b, peer).1
  {
    hide UpdateMessage, Missing;
  }

  lemma OtherNameIgnored(replica: map<Byte, Value>, keys: map<Bytes, int>, peer: Session, name: Bytes)
    requires StrLen(peer.username) <= 127 && CStr(peer.username) != name
    ensures Learns(replica, SyncOne(keys, peer).1, name) == replica
  {
    var out := SyncOne(keys, peer).1;
    if out != [] {
      var types := Missing(peer.history, keys[peer.username]);
      assert out == [UpdateMessage(peer, types)];
      hide UpdateMessage, Learn, SyncOne, Missing;
      LearnUpdate(replica, peer, types, name);
      LearnsOne(replica, out[0], name);
    }
  }

  /** The heart of the protocol, for one observer and one sender: after the observer's update the
      key names the sender's newest update or nothing was sent, and whatever the lag the message sent
      leaves it in agreement, apart from what is lost; at lags of at most nine nothing is. */
  lemma ObserveOne(keys: map<Bytes, int>, peer: Session, full: seq<seq<Byte>>, link: Option<Link>,
                   replica: map<Byte, Value>)
    requires Recorded(peer, full) && StrLen(peer.username) <= 127
    requires Linked(keys, peer.username, full, link)
    ensures Linked(SyncOne(keys, peer).0, peer.username, full, Observed(link, full))
    ensures var after := Observed(link, full);
            && (after.Some? && after.value.timely && (link.Some? && link.value.timely ==> link.value.lost == {}) ==>
                  after.value.lost == {})
            && (after.Some? && (link.Some? ==> Agrees(peer.vars, full, link.value, replica)) ==>
                  Agrees(peer.vars, full, after.value, Learns(replica, SyncOne(keys, peer).1, CStr(peer.username))))
  {
    if link.None? {
      FirstContact(keys, peer, full, replica);
    } else {
      hide SyncOne, Observed, Agrees, Learns, CStr, StrLen, Linked, Missing, Window, Recorded, UpdateMessage;
      ObservedLinked(keys, peer, full, link.value);
      LostInTime(full, link.value);
      if Agrees(peer.vars, full, link.value, replica) {
        CatchUp(peer, full, link.value, replica);
      }
    }
  }

  /** The key after the turn, and what is sent in it. */
  lemma ObservedLinked(keys: map<Bytes, int>, peer: Session, full: seq<seq<Byte>>, l: Link)
    requires Recorded(peer, full) && Linked(keys, peer.username, full, Some(l))
    ensures Observed(Some(l), full).Some?
    ensures Linked(SyncOne(keys, peer).0, peer.username, full, Observed(Some(l), full))
    ensures l.base <= l.pos < |full|
    ensures var types := Missing(Window(full), l.pos % KEYS);
            forall replica :: Learns(replica, SyncOne(keys, peer).1, CStr(peer.username)) ==
              if types == [] then replica else Learns(replica, [UpdateMessage(peer, types)], CStr(peer.username))
  {
    hide Missing, Window, UpdateMessage, TypesSince, CStr, Learn;
    assert LastKey(peer.history) == (|full| - 1) % KEYS by {
      NewestKey(full);
    }
  }

  lemma LostInTime(full: seq<seq<Byte>>, l: Link)
    requires l.pos < |full|
    ensures var after := Observed(Some(l), full).value;
            after.timely ==> l.timely && (l.lost == {} ==> after.lost == {})
  {
    hide Missing, Window, TypesSince;
    if |full| - 1 - l.pos <= 9 {
      AllNamed(full, l.pos);
    }
  }

  /** At a lag of at most nine everything that was touched is named. */
  lemma AllNamed(full: seq<seq<Byte>>, pos: nat)
    requires pos < |full| && |full| - 1 - pos <= 9
    ensures forall t :: t in TypesSince(full, pos) <==> t in Missing(Window(full), pos % KEYS)
  {
    hide Missing, Window, Flatten;
    forall t: Byte
      ensures t in TypesSince(full, pos) <==> t in Missing(Window(full), pos % KEYS)
    {
      MissingComplete(full, pos, t);
    }
  }

  lemma NewestKey(full: seq<seq<Byte>>)
    requires full != []
    ensures Window(full) != [] && Window(full)[0].key == (|full| - 1) % KEYS
  {
  }

  lemma FirstContact(keys: map<Bytes, int>, peer: Session, full: seq<seq<Byte>>, replica: map<Byte, Value>)
    requires Recorded(peer, full) && Linked(keys, peer.username, full, None)
    ensures Linked(SyncOne(keys, peer).0, peer.username, full, Observed(None, full))
    ensures full != [] ==> Agrees(peer.vars, full, Observed(None, full).value, replica)
    ensures SyncOne(keys, peer).1 == []
  {
    if full != [] {
      NewestKey(full);
    }
    hide Window, Missing;
  }

  /** One turn, at any lag: the message of exactly the missing variables, if there are any. */
  lemma CatchUp(peer: Session, full: seq<seq<Byte>>, l: Link, replica: map<Byte, Value>)
    requires Recorded(peer, full) && StrLen(peer.username) <= 127
    requires l.base <= l.pos < |full|
    requires Agrees(peer.vars, full, l, replica)
    ensures var types := Missing(Window(full), l.pos % KEYS);
            Agrees(peer.vars, full, Observed(Some(l), full).value,
                   if types == [] then replica else Learns(replica, [UpdateMessage(peer, types)], CStr(peer.username)))
  {
    hide Missing, Window, UpdateMessage, Recorded, Merge, RecordsFor, Learn, Learns, CStr, StrLen, Observed, Agrees;
    var types := Missing(Window(full), l.pos % KEYS);
    if types == [] {
      NothingSent(peer.vars, full, l, replica);
    } else {
      CaughtUpAll(peer.vars, full, l, replica);
      LearnUpdate(replica, peer, types, CStr(peer.username));
      LearnsOne(replica, UpdateMessage(peer, types), CStr(peer.username));
    }
  }

  lemma NothingSent(vars: Vars, full: seq<seq<Byte>>, l: Link, replica: map<Byte, Value>)
    requires l.pos < |full| && Missing(Window(full), l.pos % KEYS) == [] && Agrees(vars, full, l, replica)
    ensures Agrees(vars, full, Observed(Some(l), full).value, replica)
  {
    hide Missing, Window, Touched, Carried;
  }

  lemma CaughtUpAll(vars: Vars, full: seq<seq<Byte>>, l: Link, replica: map<Byte, Value>)
    requires l.base <= l.pos < |full| && Agrees(vars, full, l, replica)
    requires Missing(Window(full), l.pos % KEYS) != []
    ensures Agrees(vars, full, Observed(Some(l), full).value,
                   Merge(replica, RecordsFor(PeerGrammar, vars, Missing(Window(full), l.pos % KEYS))))
  {
    hide Missing, Window, Merge, RecordsFor, Touched, TypesSince;
    var types := Missing(Window(full), l.pos % KEYS);
    var after := Observed(Some(l), full).value;
    forall t: Byte | Carried(t) && Touched(full, after.base + 1, after.pos + 1, t) && t !in after.revived + after.lost
      ensures var merged := Merge(replica, RecordsFor(PeerGrammar, vars, types)); t in merged && merged[t] == vars[t]
    {
      CaughtUp(vars, full, l, replica, t);
    }
  }

  lemma CaughtUp(vars: Vars, full: seq<seq<Byte>>, l: Link, replica: map<Byte, Value>, t: Byte)
    requires l.base <= l.pos < |full|
    requires Agrees(vars, full, l, replica)
    requires Carried(t) && Touched(full, l.base + 1, |full|, t)
    requires var types := Missing(Window(full), l.pos % KEYS);
             t in l.revived + l.lost + TypesSince(full, l.pos) ==> t in types
    ensures var after := Merge(replica, RecordsFor(PeerGrammar, vars, Missing(Window(full), l.pos % KEYS)));
            t in after && after[t] == vars[t]
  {
    hide Missing, Window, Merge, RecordsFor, Touched, Carried, TypesSince;
    MergeRecordsFor(replica, vars, Missing(Window(full), l.pos % KEYS), t);
    SinceIsTouched(full, l.pos, t);
    SplitTouched(full, l.base + 1, l.pos + 1, |full|, t);
  }

  lemma SinceIsTouched(full: seq<seq<Byte>>, pos: nat, t: Byte)
    requires pos < |full|
    ensures t in TypesSince(full, pos) <==> Touched(full, pos + 1, |full|, t)
  {
    hide Flatten, Touched;
    TailTouched(full, |full| - 1 - pos, t);
  }

  lemma MissingIsTouched(full: seq<seq<Byte>>, pos: nat, t: Byte)
    requires pos < |full| && |full| - 1 - pos <= 9
    ensures t in Missing(Window(full), pos % KEYS) <==> Touched(full, pos + 1, |full|, t)
  {
    hide Missing, Window, TypesSince, Touched;
    AllNamed(full, pos);
    SinceIsTouched(full, pos, t);
  }

  /** The query from key `pos` names t: some of the last (lag mod 11) updates touched it, and the lag is
      not 10 modulo 11. */
  ghost predicate Named(full: seq<seq<Byte>>, pos: nat, t: Byte)
    requires pos < |full|
  {
    var m := (|full| - 1 - pos) % KEYS;
    m != MAX_HISTORY && Touched(full, |full| - m, |full|, t)
  }

  lemma NamedIff(full: seq<seq<Byte>>, pos: nat, t: Byte)
    requires pos < |full|
    ensures t in Missing(Window(full), pos % KEYS) <==> Named(full, pos, t)
  {
    hide Missing, Window, TypesSince, Touched, Dedup, Flatten;
    MissingExact(full, pos);
    var m := (|full| - 1 - pos) % KEYS;
    if m != MAX_HISTORY {
      DedupElements(Flatten(full[|full| - m..]));
      TailTouched(full, m, t);
    }
  }

  lemma TailTouched(full: seq<seq<Byte>>, m: nat, t: Byte)
    requires m <= |full|
    ensures t in Flatten(full[|full| - m..]) <==> Touched(full, |full| - m, |full|, t)
  {
    hide Flatten;
    var tail := full[|full| - m..];
    FlattenMember(tail, t);
    if i :| 0 <= i < |tail| && t in tail[i] {
      assert t in full[|full| - m + i];
    }
    if Touched(full, |full| - m, |full|, t) {
      var i :| 0 <= i < |full| && |full| - m <= i < |full| && t in full[i];
      assert t in tail[i - |full| + m];
    }
  }

  lemma SplitTouched(full: seq<seq<Byte>>, a: int, b: int, c: int, t: Byte)
    ensures a <= b <= c ==> (Touched(full, a, c, t) <==> Touched(full, a, b, t) || Touched(full, b, c, t))
  {
  }

  // ---------------------------------------------------------------- the exact limit of one turn

  /** o's key for the sender is `lag` updates old. */
  ghost predicate Lags(lag: nat, keys: map<Bytes, int>, peer: Session, full: seq<seq<Byte>>, l: Link)
  {
    Recorded(peer, full) && StrLen(peer.username) <= 127 && Linked(keys, peer.username, full, Some(l)) &&
    |full| - 1 - l.pos == lag
  }

  /** If o agreed with the sender before its turn, it does so after it, with no more exceptions. */
  ghost predicate KeepsAgreement(keys: map<Bytes, int>, peer: Session, full: seq<seq<Byte>>, l: Link,
                                 replica: map<Byte, Value>)
  {
    Agrees(peer.vars, full, l, replica) && full != [] ==>
      Agrees(peer.vars, full, Observed(Some(l), full).value.(lost := l.lost),
             Learns(replica, SyncOne(keys, peer).1, CStr(peer.username)))
  }

  /** A turn at a lag keeps agreement for every history if and only if the lag is at most nine or nothing
      is sent, which is at 0 and 10 modulo 11. */
  lemma {:induction false} TurnLimit(lag: nat)
    ensures (forall keys, peer, full, l, replica ::
               Lags(lag, keys, peer, full, l) ==> KeepsAgreement(keys, peer, full, l, replica))
            <==> lag <= 9 || lag % KEYS in {0, MAX_HISTORY}
  {
    hide Lags, KeepsAgreement;
    if lag <= 9 || lag % KEYS in {0, MAX_HISTORY} {
      forall keys, peer, full, l, replica | Lags(lag, keys, peer, full, l)
        ensures KeepsAgreement(keys, peer, full, l, replica)
      {
        SafeTurn(lag, keys, peer, full, l, replica);
      }
    } else {
      var g := Garbage(Single(0, 0, 0, 0), Single(0, 0, 0, 0), Single(0, 0, 0, 0), false);
      var full := Loser(lag);
      var peer := NewSession(g).(history := Window(full), historyIndex := |full| % KEYS);
      LosingTurn(lag, peer);
      assert Lags(lag, map[peer.username := 0], peer, full, Link(0, 0, true, {}, {}));
    }
  }

  lemma SafeTurn(lag: nat, keys: map<Bytes, int>, peer: Session, full: seq<seq<Byte>>, l: Link, replica: map<Byte,
    Value>)
    requires Lags(lag, keys, peer, full, l) && (lag <= 9 || lag % KEYS in {0, MAX_HISTORY})
    ensures KeepsAgreement(keys, peer, full, l, replica)
  {
    hide Missing, Window, UpdateMessage, Agrees, Learn, CStr, StrLen, TypesSince;
    MissingEmptyIff(full, l.pos);
    if Agrees(peer.vars, full, l, replica) {
      CatchUp(peer, full, l, replica);
      if lag <= 9 {
        AllNamed(full, l.pos);
      }
      MoreExceptions(peer.vars, full, Observed(Some(l), full).value, l.lost,
                     Learns(replica, SyncOne(keys, peer).1, CStr(peer.username)));
    }
  }

  lemma MoreExceptions(vars: Vars, full: seq<seq<Byte>>, l: Link, lost: set<Byte>, replica: map<Byte, Value>)
    requires Agrees(vars, full, l, replica) && l.lost <= lost
    ensures Agrees(vars, full, l.(lost := lost), replica)
  {
    hide Touched, Carried;
  }

  /** The replica never hears of the crouching in the first update after the key. */
  lemma LosingTurn(lag: nat, peer: Session)
    requires lag > 9 && lag % KEYS !in {0, MAX_HISTORY}
    requires Recorded(peer, Loser(lag)) && peer.username == []
    ensures var keys := map[peer.username := 0];
            && Lags(lag, keys, peer, Loser(lag), Link(0, 0, true, {}, {}))
            && !KeepsAgreement(keys, peer, Loser(lag), Link(0, 0, true, {}, {}), map[])
  {
    hide Missing, Window, Learn, Merge, RecordsFor, UpdateMessage, Dedup, Flatten;
    var full, m := Loser(lag), lag % KEYS;
    var types := Missing(Window(full), 0);
    MissingExact(full, 0);
    MissingEmptyIff(full, 0);
    LoserTail(lag, m);
    DedupElements(Flatten(full[|full| - m..]));
    LearnsOne(map[], UpdateMessage(peer, types), CStr([]));
    LearnUpdate(map[], peer, types, CStr([]));
    MergeRecordsFor(map[], peer.vars, types, CROUCH);
    assert full[1] == [CROUCH];
    assert Touched(full, 1, |full|, CROUCH);
  }

  // ---------------------------------------------------------------- every step keeps the invariant

  lemma QuietAfterBroadcast(clients: map<Bytes, Session>, me: Bytes, message: Bytes, n: Bytes)
    requires me in clients && n in clients && Quiet(message)
    requires forall m :: m in clients[n].inbox ==> Quiet(m)
    ensures forall m :: m in Broadcast(clients, me, message)[n].inbox ==> Quiet(m)
  {
    hide Quiet;
  }

  lemma NoticeQuiet(content: Bytes)
    ensures Quiet(NoticeMessage(content))
  {
    hide EncodeString, EmitValue;
  }

  lemma SpawnQuiet(c: Session, second: Bytes)
    ensures Quiet(SpawnMessage(c, second))
  {
    hide EncodeString, EmitValue;
  }

  /** The replies of one update, as far as one peer is concerned. */
  lemma UpdateTeaches(clients: map<Bytes, Session>, order: seq<Bytes>, me: Bytes, s: Bytes,
                      sent: seq<Bytes>, quiet: seq<Bytes>)
    requires WellFormed(State(clients, order)) && IsPeer(clients, me, s)
    requires forall m :: m in quiet ==> Quiet(m)
    ensures var (keys, updates) := Sync(clients, Peers(clients, order, me), clients[me].keys);
            var (key1, message) := SyncOne(clients[me].keys, clients[s]);
            && EqualAt(keys, key1, s)
            && (Unambiguous(clients, me, s) ==>
                  Replica(sent + (quiet + updates), CStr(s)) == Learns(Replica(sent, CStr(s)), message, CStr(s)))
  {
    hide Learn, Peers, Sync, SyncOne, Quiet, CStr, StrLen;
    var names := Peers(clients, order, me);
    assert forall n :: n in names <==> n in order && n != me && SameLevel(clients[n], clients[me]);
    assert s in names;
    SortedDistinct(order);
    PeersDistinct(clients, order, me);
    SyncKeys(clients, names, clients[me].keys, s);
    var updates := Sync(clients, names, clients[me].keys).1;
    if Unambiguous(clients, me, s) {
      var name := CStr(s);
      LearnsConcat(map[], sent, quiet + updates, name);
      LearnsConcat(Replica(sent, name), quiet, updates, name);
      LearnsQuiet(Replica(sent, name), quiet, name);
      forall n | n in names
        ensures StrLen(n) <= 127 && (n != s ==> CStr(n) != CStr(s))
      {
        assert Entered(clients[n], n) && StrLen(n) <= |n|;
        assert IsPeer(clients, me, n);
      }
      SyncLearns(clients, names, clients[me].keys, s, Replica(sent, name));
    }
  }

  /** Nothing a pair of players is judged by has changed. */
  lemma PairKept(w: World, w': World, o: Bytes, s: Bytes)
    requires IsPeer(w.st.clients, o, s) && o in w'.st.clients && s in w'.st.clients && PairOk(w, o, s)
    requires w.st.clients[o].keys == w'.st.clients[o].keys && w.st.clients[s].vars == w'.st.clients[s].vars
    requires w.full(s) == w'.full(s) && w.links(o, s) == w'.links(o, s)
    requires Replica(w.sent(o), CStr(s)) == Replica(w'.sent(o), CStr(s))
    requires Unambiguous(w'.st.clients, o, s) ==> Unambiguous(w.st.clients, o, s)
    ensures PairOk(w', o, s)
  {
    hide Linked, Agrees, Unambiguous, Replica, CStr;
  }

  lemma UnambiguousShrinks(a: map<Bytes, Session>, b: map<Bytes, Session>, o: Bytes, s: Bytes)
    requires forall n :: n in a ==> n in b && SameIdentity(a[n], b[n])
    requires o in a && Unambiguous(b, o, s)
    ensures Unambiguous(a, o, s)
  {
    forall n | n != s && IsPeer(a, o, n)
      ensures CStr(n) != CStr(s)
    {
      assert IsPeer(b, o, n);
    }
  }

  lemma NextRegistry(cfg: Config, w: World, e: Event)
    requires WellFormed(w.st)
    ensures var after := Next(cfg, w, e).st;
            && after == React(cfg, w.st, e).st
            && WellFormed(after)
            && (!e.DisconnectEvent? ==>
                  forall n :: n in w.st.clients ==>
                    n in after.clients && SameIdentity(w.st.clients[n], after.clients[n]))
  {
    ReactWellFormed(cfg, w.st, e);
    hide SignOn, Update, Chat, Query, OutsideState, WellFormed, Refusal, ReadApplication, FateAt;
  }

  lemma IdleUpdate(cfg: Config, w: World, me: Bytes, p: Packet, now: int)
    requires OrderCovered(w.st) && me !in w.st.clients
    ensures Next(cfg, w, UpdateEvent(me, p, now)) == w
  {
  }

  lemma UpdateUnfolded(cfg: Config, w: World, me: Bytes, p: Packet, now: int)
    requires OrderCovered(w.st) && me in w.st.clients
    ensures var w' := Next(cfg, w, UpdateEvent(me, p, now));
            var settled := Settled(w.st.clients, me, p, now);
            && me in settled && settled.Keys == w.st.clients.Keys
            && var (keys, updates) := Sync(settled, Peers(settled, w.st.order, me), settled[me].keys);
            && w'.st == State(settled[me := settled[me].(keys := keys)], w.st.order)
            && w'.sent(me) == w.sent(me) + (Refreshed(w.st.clients[me], p, now).1 + updates)
            && w'.full(me) == FullAfter(w.full(me), p)
            && (forall n :: n != me ==> w'.sent(n) == w.sent(n) && w'.full(n) == w.full(n))
            && (forall o, s :: w'.links(o, s) ==
                  if o == me && IsPeer(w.st.clients, o, s) then Observed(w.links(o, s), w.full(s))
                  else if s == me then Stale(w.links(o, s), RevivedVars(FateAt(w.st.clients[me], p, now)))
                  else w.links(o, s))
  {
    SettledEffect(w.st.clients, me, p, now);
    hide Settled, Sync, Peers, Refreshed, FateAt, FullAfter, Observed, Stale, RevivedVars;
  }

  lemma SettledQuiet(clients: map<Bytes, Session>, me: Bytes, p: Packet, now: int, n: Bytes)
    requires me in clients && n in clients
    requires forall m :: m in clients[n].inbox ==> Quiet(m)
    requires forall m :: m in Refreshed(clients[me], p, now).0.inbox ==> Quiet(m)
    ensures n in Settled(clients, me, p, now)
    ensures forall m :: m in Settled(clients, me, p, now)[n].inbox ==> Quiet(m)
  {
    hide Refreshed, FateAt, Quiet, NoticeMessage, Broadcast;
    var own := clients[me := Refreshed(clients[me], p, now).0];
    BroadcastEffect(own, me, DiedNotice(clients[me]));
    NoticeQuiet(clients[me].username + Text(" has died."));
    QuietAfterBroadcast(own, me, DiedNotice(clients[me]), n);
  }

  lemma UpdatePlayer(cfg: Config, w: World, me: Bytes, p: Packet, now: int, n: Bytes)
    requires WellFormed(w.st) && me in w.st.clients && n in w.st.clients && PlayerOk(w, me) && PlayerOk(w, n)
    ensures var w' := Next(cfg, w, UpdateEvent(me, p, now)); n in w'.st.clients && PlayerOk(w', n)
  {
    hide Next, Settled, Refreshed, Quiet, Sync, Peers, Sorted, Entered, Window, FullAfter, SyncOne, SameLevel,
      Records, Carried;
    UpdateUnfolded(cfg, w, me, p, now);
    SettledEffect(w.st.clients, me, p, now);
    SenderWrites(w.st.clients[me], w.full(me), p, now);
    SettledQuiet(w.st.clients, me, p, now, n);
    if n == me {
      forall u | u in Next(cfg, w, UpdateEvent(me, p, now)).st.clients[me].keys
        ensures u in w.st.clients
      {
        SettledWellFormed(w.st, me, p, now);
        SyncedKeyKnown(State(Settled(w.st.clients, me, p, now), w.st.order), me, u);
      }
    } else {
      RecordedKept(w.st.clients[n], Settled(w.st.clients, me, p, now)[n], w.full(n));
    }
  }

  lemma SyncedKeyKnown(st: State, me: Bytes, u: Bytes)
    requires WellFormed(st) && me in st.clients
    ensures var keys := Sync(st.clients, Peers(st.clients, st.order, me), st.clients[me].keys).0;
            u in keys ==> u in st.clients || u in st.clients[me].keys
  {
    hide Sync, SyncOne, Entered, Less;
    SortedDistinct(st.order);
    PeersDistinct(st.clients, st.order, me);
    forall n | n in st.clients
      ensures st.clients[n].username == n
    {
      NameFits(st, n);
    }
    SyncKeys(st.clients, Peers(st.clients, st.order, me), st.clients[me].keys, u);
  }

  /** The updating player as a sender. */
  lemma UpdatePairSender(cfg: Config, w: World, me: Bytes, p: Packet, now: int, o: Bytes)
    requires Invariant(w) && IsPeer(w.st.clients, o, me)
    ensures var w' := Next(cfg, w, UpdateEvent(me, p, now));
            o in w'.st.clients && me in w'.st.clients && PairOk(w', o, me)
  {
    hide Next, React, Settled, Refreshed, RevivedVars, FateAt, Agrees, Recorded, Records, Peers, Sync, Carried, Tags,
      Quiet, Sorted, Entered, FullAfter;
    var w' := Next(cfg, w, UpdateEvent(me, p, now));
    UpdateUnfolded(cfg, w, me, p, now);
    SettledEffect(w.st.clients, me, p, now);
    NextRegistry(cfg, w, UpdateEvent(me, p, now));
    assert PlayerOk(w, me) && PairOk(w, o, me);
    SenderWrites(w.st.clients[me], w.full(me), p, now);
    var before, after := w.st.clients[me], Refreshed(w.st.clients[me], p, now).0;
    var link, ts := w.links(o, me), RevivedVars(FateAt(before, p, now));
    assert w'.st.clients[me].vars == after.vars;
    assert w'.st.clients[o].keys == w.st.clients[o].keys;
    assert w'.links(o, me) == Stale(link, ts);
    if link.Some? {
      FullGrows(w.full(me), p);
      if Unambiguous(w'.st.clients, o, me) {
        UnambiguousShrinks(w.st.clients, w'.st.clients, o, me);
        AgreesAfterWrite(before.vars, after.vars, w.full(me), p, link.value, ts, Replica(w.sent(o), CStr(me)));
      }
    }
  }

  lemma FullGrows(full: seq<seq<Byte>>, p: Packet)
    ensures |full| <= |FullAfter(full, p)|
  {
    hide Records;
  }

  /** The updating player as an observer. */
  lemma UpdatePairObserver(cfg: Config, w: World, me: Bytes, p: Packet, now: int, s: Bytes)
    requires Invariant(w) && IsPeer(w.st.clients, me, s)
    ensures var w' := Next(cfg, w, UpdateEvent(me, p, now));
            me in w'.st.clients && s in w'.st.clients && PairOk(w', me, s)
  {
    hide Next, React, Agrees, Recorded, SyncOne, Sorted, Entered, Quiet, Observed, CStr, StrLen, Learns, Linked,
      EqualAt, Unambiguous;
    var w' := Next(cfg, w, UpdateEvent(me, p, now));
    var c, peer := w.st.clients[me], w.st.clients[s];
    assert PlayerOk(w, s) && PairOk(w, me, s);
    NameFits(w.st, s);
    ObserverUnfolded(cfg, w, me, p, now, s);
    ObserveOne(c.keys, peer, w.full(s), w.links(me, s), Replica(w.sent(me), CStr(s)));
    LinkedAt(SyncOne(c.keys, peer).0, w'.st.clients[me].keys, s, w.full(s), w'.links(me, s));
    if Unambiguous(w'.st.clients, me, s) {
      UnambiguousShrinks(w.st.clients, w'.st.clients, me, s);
    }
    ObservedTimely(w.links(me, s), w.full(s));
  }

  /** The update as one pair sees it. */
  lemma ObserverUnfolded(cfg: Config, w: World, me: Bytes, p: Packet, now: int, s: Bytes)
    requires Invariant(w) && IsPeer(w.st.clients, me, s)
    ensures var w' := Next(cfg, w, UpdateEvent(me, p, now));
            var (key, message) := SyncOne(w.st.clients[me].keys, w.st.clients[s]);
            && (forall n :: n in w.st.clients ==> n in w'.st.clients && SameIdentity(w.st.clients[n], w'.st.clients[n]))
            && EqualAt(w'.st.clients[me].keys, key, s)
            && w'.st.clients[s].vars == w.st.clients[s].vars
            && w'.full(s) == w.full(s) && w'.links(me, s) == Observed(w.links(me, s), w.full(s))
            && (Unambiguous(w.st.clients, me, s) ==>
                  Replica(w'.sent(me), CStr(s)) == Learns(Replica(w.sent(me), CStr(s)), message, CStr(s)))
  {
    hide Next, React, Settled, Refreshed, Agrees, Window, Peers, Sync, SyncOne, Sorted, Entered, Quiet, Learn,
      Observed, CStr, StrLen, Learns, FullAfter, Linked, EqualAt, PairOk, Recorded, Unambiguous;
    var settled := Settled(w.st.clients, me, p, now);
    UpdateUnfolded(cfg, w, me, p, now);
    SettledEffect(w.st.clients, me, p, now);
    SettledWellFormed(w.st, me, p, now);
    NextRegistry(cfg, w, UpdateEvent(me, p, now));
    assert PlayerOk(w, me);
    SenderWrites(w.st.clients[me], w.full(me), p, now);
    UpdateTeaches(settled, w.st.order, me, s, w.sent(me), Refreshed(w.st.clients[me], p, now).1);
    SyncOneSame(settled[me].keys, settled[s], w.st.clients[s]);
    if Unambiguous(w.st.clients, me, s) {
      UnambiguousShrinks(settled, w.st.clients, me, s);
    }
  }

  lemma SyncOneSame(keys: map<Bytes, int>, a: Session, b: Session)
    requires SameButInbox(a, b)
    ensures SyncOne(keys, a) == SyncOne(keys, b)
  {
    hide Missing, RecordsFor, EncodeString, Encode;
  }

  lemma NameFits(st: State, n: Bytes)
    requires WellFormed(st) && n in st.clients
    ensures st.clients[n].username == n && StrLen(n) <= 127
  {
    assert Entered(st.clients[n], n);
  }

  lemma LinkedAt(a: map<Bytes, int>, b: map<Bytes, int>, s: Bytes, full: seq<seq<Byte>>, link: Option<Link>)
    requires Linked(a, s, full, link) && EqualAt(b, a, s)
    ensures Linked(b, s, full, link)
  {
  }

  lemma ObservedTimely(link: Option<Link>, full: seq<seq<Byte>>)
    ensures Observed(link, full).Some? && Observed(link, full).value.timely && link.Some? ==> link.value.timely
  {
  }

  lemma SettledWellFormed(st: State, me: Bytes, p: Packet, now: int)
    requires WellFormed(st) && me in st.clients
    ensures WellFormed(State(Settled(st.clients, me, p, now), st.order))
  {
    hide Settled, Refreshed;
    SettledEffect(st.clients, me, p, now);
  }

  lemma UpdateKeepsInvariant(cfg: Config, w: World, me: Bytes, p: Packet, now: int)
    requires Invariant(w) && me in w.st.clients
    ensures Invariant(Next(cfg, w, UpdateEvent(me, p, now)))
  {
    hide Next, React, Settled, Refreshed, Peers, Sync, PairOk, PlayerOk, Observed, Stale, Unambiguous;
    var w' := Next(cfg, w, UpdateEvent(me, p, now));
    UpdateUnfolded(cfg, w, me, p, now);
    SettledEffect(w.st.clients, me, p, now);
    NextRegistry(cfg, w, UpdateEvent(me, p, now));
    forall n | n in w'.st.clients
      ensures PlayerOk(w', n)
    {
      assert PlayerOk(w, me) && PlayerOk(w, n);
      UpdatePlayer(cfg, w, me, p, now, n);
    }
    forall o, s | IsPeer(w'.st.clients, o, s)
      ensures PairOk(w', o, s)
    {
      assert IsPeer(w.st.clients, o, s);
      if o == me {
        UpdatePairObserver(cfg, w, me, p, now, s);
      } else if s == me {
        UpdatePairSender(cfg, w, me, p, now, o);
      } else {
        if Unambiguous(w'.st.clients, o, s) {
          UnambiguousShrinks(w.st.clients, w'.st.clients, o, s);
        }
        PairKept(w, w', o, s);
      }
    }
  }

  lemma SignOnUnfolded(cfg: Config, w: World, p: Packet, g: Garbage)
    requires WellFormed(w.st) && Refusal(cfg, w.st, ReadApplication(p)).None?
    ensures var w' := Next(cfg, w, SignOnEvent(p, g));
            var a := ReadApplication(p).username;
            && a !in w.st.clients && a in w'.st.clients
            && w'.st.clients.Keys == w.st.clients.Keys + {a}
            && w'.st.clients[a].keys == map[] && w'.st.clients[a].inbox == []
            && Recorded(w'.st.clients[a], [])
            && (forall n :: n in w.st.clients ==> SameButInbox(w.st.clients[n], w'.st.clients[n]))
            && w'.full(a) == []
            && (forall n :: n != a ==> w'.sent(n) == w.sent(n) && w'.full(n) == w.full(n))
            && (forall o, s :: w'.links(o, s) == if o == a || s == a then None else w.links(o, s))
  {
    var a := ReadApplication(p);
    AdmittedEntered(cfg, w.st, p, g);
    SignOnEffect(cfg, w.st, p, g);
    AdmittedFresh(cfg, a, g);
    assert a.username !in w.st.clients;
    hide SignOn, ReadApplication, Refusal, Admitted, InsertKey, Recorded;
  }

  lemma AdmittedFresh(cfg: Config, a: Application, g: Garbage)
    ensures var c := Admitted(cfg, a, g); c.keys == map[] && c.inbox == [] && Recorded(c, [])
  {
  }

  lemma SignOnInboxQuiet(cfg: Config, w: World, p: Packet, g: Garbage, n: Bytes)
    requires Invariant(w) && n in w.st.clients
    ensures n in SignOn(cfg, w.st, p, g).st.clients
    ensures forall m :: m in SignOn(cfg, w.st, p, g).st.clients[n].inbox ==> Quiet(m)
  {
    assert PlayerOk(w, n);
    var a := ReadApplication(p);
    hide ReadApplication, Refusal, Recorded;
    if Refusal(cfg, w.st, a).Some? {
      SignOnRefused(cfg, w.st, p, g);
    } else {
      SignOnUnfolded(cfg, w, p, g);
      var c := Admitted(cfg, a, g);
      AdmittedName(cfg, a, g);
      var joined := Registered(w.st, c).clients;
      hide Admitted, Quiet, Broadcast, SpawnMessage, NoticeMessage;
      NoticeQuiet(c.username + Text(" has entered the room."));
      SpawnQuiet(c, c.team);
      QuietAfterBroadcast(joined, c.username, EnteredNotice(c), n);
      BroadcastEffect(joined, c.username, EnteredNotice(c));
      QuietAfterBroadcast(Broadcast(joined, c.username, EnteredNotice(c)), c.username, SpawnMessage(c, c.team), n);
    }
  }

  lemma SignOnKeepsInvariant(cfg: Config, w: World, p: Packet, g: Garbage)
    requires Invariant(w)
    ensures Invariant(Next(cfg, w, SignOnEvent(p, g)))
  {
    hide Next, SignOn, React, ReadApplication, Refusal, Recorded, Quiet, Unambiguous, PairOk, Sorted, Entered;
    var e := SignOnEvent(p, g);
    var w' := Next(cfg, w, e);
    NextRegistry(cfg, w, e);
    if Refusal(cfg, w.st, ReadApplication(p)).Some? {
      RefusedUnfolded(cfg, w, p, g);
    } else {
      SignOnUnfolded(cfg, w, p, g);
      forall n | n in w'.st.clients
        ensures PlayerOk(w', n)
      {
        if n in w.st.clients {
          SignOnPlayer(cfg, w, p, g, n);
        }
      }
      forall o, s | IsPeer(w'.st.clients, o, s)
        ensures PairOk(w', o, s)
      {
        SignOnPair(cfg, w, p, g, o, s);
      }
    }
  }

  lemma RefusedUnfolded(cfg: Config, w: World, p: Packet, g: Garbage)
    requires OrderCovered(w.st) && Refusal(cfg, w.st, ReadApplication(p)).Some?
    ensures Next(cfg, w, SignOnEvent(p, g)) == w
  {
    hide ReadApplication, Refusal, SignOn;
    SignOnRefused(cfg, w.st, p, g);
  }

  lemma SignOnPlayer(cfg: Config, w: World, p: Packet, g: Garbage, n: Bytes)
    requires Invariant(w) && Refusal(cfg, w.st, ReadApplication(p)).None? && n in w.st.clients
    ensures var w' := Next(cfg, w, SignOnEvent(p, g)); n in w'.st.clients && PlayerOk(w', n)
  {
    hide Next, SignOn, React, ReadApplication, Refusal, Recorded, Quiet, PairOk, Sorted, Entered;
    var w' := Next(cfg, w, SignOnEvent(p, g));
    assert WellFormed(w.st) && PlayerOk(w, n);
    SignOnUnfolded(cfg, w, p, g);
    SignOnNext(cfg, w, p, g);
    SignOnInboxQuiet(cfg, w, p, g, n);
    RecordedKept(w.st.clients[n], w'.st.clients[n], w.full(n));
  }

  lemma SignOnNext(cfg: Config, w: World, p: Packet, g: Garbage)
    requires OrderCovered(w.st)
    ensures Next(cfg, w, SignOnEvent(p, g)).st == SignOn(cfg, w.st, p, g).st
  {
    hide ReadApplication, Refusal, SignOn;
  }

  lemma SignOnPair(cfg: Config, w: World, p: Packet, g: Garbage, o: Bytes, s: Bytes)
    requires Invariant(w) && Refusal(cfg, w.st, ReadApplication(p)).None?
    ensures OrderCovered(w.st)
    ensures IsPeer(Next(cfg, w, SignOnEvent(p, g)).st.clients, o, s) ==> PairOk(Next(cfg, w, SignOnEvent(p, g)), o, s)
  {
    hide Next, SignOn, React, ReadApplication, Refusal, Recorded, Quiet, Unambiguous, PairOk, Sorted, Entered;
    var w' := Next(cfg, w, SignOnEvent(p, g));
    var a := ReadApplication(p).username;
    assert WellFormed(w.st);
    SignOnUnfolded(cfg, w, p, g);
    NextRegistry(cfg, w, SignOnEvent(p, g));
    if !IsPeer(w'.st.clients, o, s) {
    } else if o == a || s == a {
      assert o in w.st.clients ==> PlayerOk(w, o);
      NewPairOk(w', o, s);
    } else {
      assert IsPeer(w.st.clients, o, s);
      if Unambiguous(w'.st.clients, o, s) {
        UnambiguousShrinks(w.st.clients, w'.st.clients, o, s);
      }
      PairKept(w, w', o, s);
    }
  }

  lemma RecordedKept(c: Session, d: Session, full: seq<seq<Byte>>)
    requires Recorded(c, full) && SameButInbox(c, d)
    ensures Recorded(d, full)
  {
  }

  lemma NewPairOk(w: World, o: Bytes, s: Bytes)
    requires o in w.st.clients && s in w.st.clients
    requires w.links(o, s).None? && s !in w.st.clients[o].keys
    ensures PairOk(w, o, s)
  {
  }

  // ---------------------------------------------------------------- events that only send messages

  /** A message that neither updates nor spawns a character. */
  predicate Tame(m: Bytes)
  {
    m != [] && m[0] != UPDATE_CHARACTER && m[0] != SPAWN_CHARACTER
  }

  /** Chat lines, the other requests, and whatever clients send that are not registered. */
  predicate Minor(e: Event)
  {
    e.ChatEvent? || e.QueryEvent? || e.OutsideEvent?
  }

  /** What a minor event puts into a player's inbox, and onto its connection. */
  function Mail(st: State, e: Event, n: Bytes): seq<Bytes>
    requires n in st.clients
  {
    match e
    case ChatEvent(me, p) =>
      if me in st.clients && SameLevel(st.clients[n], st.clients[me]) then
        [ChatMessage(st.clients[me].username, ReadString(p, AfterString(p, 1)))]
      else []
    case OutsideEvent(c, p, now) =>
      if !SameLevel(st.clients[n], c) then []
      else if p.At(0) == UPDATE_GAME then (if FateAt(c, p, now) == Announced then [DiedNotice(c)] else [])
      else if p.At(0) == MESSAGE then [ChatMessage(c.username, ReadString(p, AfterString(p, 1)))]
      else []
    case _ => []
  }

  function Answered(cfg: Config, st: State, e: Event, n: Bytes): seq<Bytes>
    requires OrderCovered(st)
  {
    if e.QueryEvent? && n == e.who && n in st.clients then Answers(cfg, st, Some(st.clients[n]), e.packet.At(0)) else []
  }

  lemma AnswersTame(cfg: Config, st: State, c: Option<Session>, kind: Byte)
    requires OrderCovered(st)
    ensures forall m :: m in Answers(cfg, st, c, kind) ==> Tame(m)
  {
    hide EncodeString, EmitValue, PlayerEntries, InOrder;
    assert Text("Go away!")[0] == 71;
  }

  lemma NoticeTame(content: Bytes)
    ensures Tame(NoticeMessage(content))
  {
    hide EncodeString, EmitValue;
  }

  lemma ChatTame(username: Bytes, content: Bytes)
    ensures Tame(ChatMessage(username, content))
  {
    hide EncodeString, EmitValue;
  }

  lemma MailTame(st: State, e: Event, n: Bytes)
    requires n in st.clients
    ensures forall m :: m in Mail(st, e, n) ==> Tame(m)
  {
    hide ChatMessage, NoticeMessage, ReadString, AfterString, FateAt, Tame, SameLevel;
    if e.OutsideEvent? {
      NoticeTame(e.client.username + Text(" has died."));
      ChatTame(e.client.username, ReadString(e.packet, AfterString(e.packet, 1)));
    }
    if e.ChatEvent? && e.who in st.clients {
      ChatTame(st.clients[e.who].username, ReadString(e.packet, AfterString(e.packet, 1)));
    }
  }

  /** A minor event changes inboxes and saved positions, and what connections are sent, by tame messages. */
  lemma MinorUnfolded(cfg: Config, w: World, e: Event)
    requires OrderCovered(w.st) && Minor(e)
    ensures var w' := Next(cfg, w, e);
            && w'.st.order == w.st.order
            && w'.st.clients.Keys == w.st.clients.Keys
            && (forall n :: n in w.st.clients ==>
                  SameButInbox(w.st.clients[n], w'.st.clients[n]) &&
                  w'.st.clients[n].inbox == w.st.clients[n].inbox + Mail(w.st, e, n))
            && (forall n :: w'.sent(n) == w.sent(n) + Answered(cfg, w.st, e, n))
            && w'.full == w.full && w'.links == w.links
  {
    hide Chat, Query, OutsideState, Mail, Answers;
    MinorState(cfg, w.st, e);
    assert forall s: seq<Bytes> :: s + [] == s;
    if e.QueryEvent? && e.who in w.st.clients {
      QueryAnswers(cfg, w.st, e.who, e.packet);
    }
  }

  lemma QueryAnswers(cfg: Config, st: State, who: Bytes, p: Packet)
    requires OrderCovered(st) && who in st.clients
    ensures Query(cfg, st, who, p).out == Answers(cfg, st, Some(st.clients[who]), p.At(0))
  {
    hide Answers;
  }

  lemma MinorState(cfg: Config, st: State, e: Event)
    requires OrderCovered(st) && Minor(e)
    ensures var after := React(cfg, st, e).st;
            && after.order == st.order
            && after.clients.Keys == st.clients.Keys
            && forall n :: n in st.clients ==>
                 SameButInbox(st.clients[n], after.clients[n]) &&
                 after.clients[n].inbox == st.clients[n].inbox + Mail(st, e, n)
  {
    hide Chat, Query, OutsideState, Mail;
    match e
    case ChatEvent(me, p) =>
      if me in st.clients {
        ChatEffect(st, me, p);
      }
      ChatAdds(st, me, p);
    case QueryEvent(who, p) =>
      if who in st.clients {
        QueryEffect(cfg, st, who, p);
      }
      NoMail(st, e);
    case OutsideEvent(c, p, now) =>
      OutsideEffect(st, c, p, now);
      OutsideAdds(st, c, p, now);
    case SignOnEvent(_, _) =>
    case UpdateEvent(_, _, _) =>
    case DisconnectEvent =>
  }

  lemma NoMail(st: State, e: Event)
    requires e.QueryEvent?
    ensures forall n :: n in st.clients ==> Mail(st, e, n) == [] && st.clients[n].inbox + [] == st.clients[n].inbox
  {
  }

  lemma ChatAdds(st: State, me: Bytes, p: Packet)
    ensures var e := ChatEvent(me, p);
            forall n :: n in st.clients ==>
              if me in st.clients then
                n in Chat(st, me, p).clients &&
                Chat(st, me, p).clients[n].inbox == st.clients[n].inbox + Mail(st, e, n)
              else st.clients[n].inbox == st.clients[n].inbox + Mail(st, e, n)
  {
    hide ChatMessage, ReadString, AfterString;
  }

  lemma OutsideAdds(st: State, c: Session, p: Packet, now: int)
    requires OrderCovered(st)
    ensures var e := OutsideEvent(c, p, now);
            forall n :: n in st.clients ==>
              n in OutsideState(st, c, p, now).clients &&
              OutsideState(st, c, p, now).clients[n].inbox == st.clients[n].inbox + Mail(st, e, n)
  {
    hide ChatMessage, ReadString, AfterString, FateAt, DiedNotice, Sync, PeersOf, Refreshed;
  }

  /** So it neither disturbs a replica nor a quiet inbox. */
  lemma MinorQuiet(cfg: Config, w: World, e: Event, n: Bytes)
    requires OrderCovered(w.st) && Minor(e)
    ensures forall name :: Replica(Next(cfg, w, e).sent(n), name) == Replica(w.sent(n), name)
    ensures n in w.st.clients && (forall m :: m in w.st.clients[n].inbox ==> Quiet(m)) ==>
              n in Next(cfg, w, e).st.clients && forall m :: m in Next(cfg, w, e).st.clients[n].inbox ==> Quiet(m)
  {
    hide Next, Mail, Answers, Learns, SameButInbox;
    MinorUnfolded(cfg, w, e);
    if n in w.st.clients {
      assert n in Next(cfg, w, e).st.clients.Keys;
      MailTame(w.st, e, n);
      AnswersTame(cfg, w.st, Some(w.st.clients[n]), if e.QueryEvent? then e.packet.At(0) else 0);
    }
    forall name
      ensures Replica(Next(cfg, w, e).sent(n), name) == Replica(w.sent(n), name)
    {
      LearnsConcat(map[], w.sent(n), Answered(cfg, w.st, e, n), name);
      LearnsQuiet(Replica(w.sent(n), name), Answered(cfg, w.st, e, n), name);
    }
  }

  lemma MinorKeepsInvariant(cfg: Config, w: World, e: Event)
    requires Invariant(w) && Minor(e)
    ensures Invariant(Next(cfg, w, e))
  {
    hide Next, React, Recorded, Quiet, Unambiguous, PairOk, Sorted, Entered, Minor, Mail, Answered, Replica, CStr;
    var w' := Next(cfg, w, e);
    NextRegistry(cfg, w, e);
    MinorUnfolded(cfg, w, e);
    assert !e.DisconnectEvent? by { MinorKinds(e); }
    forall n | n in w'.st.clients
      ensures PlayerOk(w', n)
    {
      assert n in w.st.clients && PlayerOk(w, n);
      MinorQuiet(cfg, w, e, n);
      RecordedKept(w.st.clients[n], w'.st.clients[n], w.full(n));
    }
    forall o, s | IsPeer(w'.st.clients, o, s)
      ensures PairOk(w', o, s)
    {
      assert IsPeer(w.st.clients, o, s);
      if Unambiguous(w'.st.clients, o, s) {
        UnambiguousShrinks(w.st.clients, w'.st.clients, o, s);
      }
      MinorQuiet(cfg, w, e, o);
      PairKept(w, w', o, s);
    }
  }

  lemma MinorKinds(e: Event)
    ensures Minor(e) <==> !e.SignOnEvent? && !e.UpdateEvent? && !e.DisconnectEvent?
  {
  }

  lemma DisconnectUnfolded(cfg: Config, w: World)
    requires OrderCovered(w.st)
    ensures Next(cfg, w, DisconnectEvent) == w.(st := EMPTY)
  {
  }

  lemma EmptyInvariant(w: World)
    requires w.st == EMPTY
    ensures Invariant(w)
  {
  }

  lemma NobodyAtStart(o: Bytes)
    ensures o !in START.st.clients
  {
  }

  /** The invariant holds after every run from an empty server. */
  lemma {:induction false} RunInvariant(cfg: Config, events: seq<Event>)
    ensures Invariant(Run(cfg, events))
  {
    if events != [] {
      hide Next, Invariant;
      var w, e := Run(cfg, events[..|events| - 1]), events[|events| - 1];
      RunInvariant(cfg, events[..|events| - 1]);
      NextKeepsInvariant(cfg, w, e);
    }
  }

  /** In every run the registry is sorted by username, indexed by username, and no two registered
      players share a username. */
  lemma RegistryInvariant(cfg: Config, events: seq<Event>)
    ensures WellFormed(Run(cfg, events).st) && Distinct(Run(cfg, events).st.order)
  {
    hide Run;
    RunInvariant(cfg, events);
    SortedDistinct(Run(cfg, events).st.order);
  }

  lemma NextKeepsInvariant(cfg: Config, w: World, e: Event)
    requires Invariant(w)
    ensures OrderCovered(w.st) && Invariant(Next(cfg, w, e))
  {
    match e
    case SignOnEvent(p, g) => SignOnKeepsInvariant(cfg, w, p, g);
    case UpdateEvent(me, p, now) =>
      if me in w.st.clients {
        UpdateKeepsInvariant(cfg, w, me, p, now);
      }
    case DisconnectEvent =>
      DisconnectUnfolded(cfg, w);
      EmptyInvariant(w.(st := EMPTY));
    case ChatEvent(_, _) => MinorKeepsInvariant(cfg, w, e);
    case QueryEvent(_, _) => MinorKeepsInvariant(cfg, w, e);
    case OutsideEvent(_, _, _) => MinorKeepsInvariant(cfg, w, e);
  }
}
