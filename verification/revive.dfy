/** What a revive leaves behind: it rewrites ten replicated variables without an update, so that the
    other players keep what they knew of them until the revived player sends them again. */
module Revives {
  import opened Wire
  import opened History
  import opened Clients
  import opened Server
  import opened Registry
  import opened Replication
  import opened Schedules

  /** In this event s sends no value of t, and it empties no registry. */
  predicate Silent(e: Event, s: Bytes, t: Byte)
  {
    !e.DisconnectEvent? && (e.UpdateEvent? && e.who == s ==> t !in Tags(Records(PeerGrammar, e.packet, 1)))
  }

  /** s has sent t since the update that o's key names. */
  ghost predicate Pending(w: World, o: Bytes, s: Bytes, t: Byte)
  {
    w.links(o, s).Some? && Touched(w.full(s), w.links(o, s).value.pos + 1, |w.full(s)|, t)
  }

  ghost predicate Holds(replica: map<Byte, Value>, t: Byte, v: Value)
  {
    t in replica && replica[t] == v
  }

  ghost predicate SameAt(a: map<Byte, Value>, b: map<Byte, Value>, t: Byte)
  {
    (t in a <==> t in b) && (t in a ==> a[t] == b[t])
  }

  // ---------------------------------------------------------------- the observer's replica

  /** Whatever the lag, o's turn leaves alone what the sender has not touched since o's key. */
  lemma TurnLeaves(keys: map<Bytes, int>, peer: Session, full: seq<seq<Byte>>, link: Option<Link>,
                   replica: map<Byte, Value>, t: Byte)
    requires Recorded(peer, full) && StrLen(peer.username) <= 127 && Carried(t)
    requires Linked(keys, peer.username, full, link)
    requires link.Some? ==> !Touched(full, link.value.pos + 1, |full|, t)
    ensures SameAt(Learns(replica, SyncOne(keys, peer).1, CStr(peer.username)), replica, t)
    ensures var after := Observed(link, full);
            after.Some? ==> !Touched(full, after.value.pos + 1, |full|, t)
  {
    var out := SyncOne(keys, peer).1;
    if link.None? {
      FirstContact(keys, peer, full, replica);
    } else {
      var types := Missing(Window(full), link.value.pos % KEYS);
      hide Missing, Window, UpdateMessage, Learn, CStr, StrLen, Merge, RecordsFor, Touched, Carried;
      NamedIsTouched(full, link.value.pos, t);
      NothingAfterNewest(full, t);
      if types != [] {
        assert out == [UpdateMessage(peer, types)];
        LearnsOne(replica, UpdateMessage(peer, types), CStr(peer.username));
        LearnUpdate(replica, peer, types, CStr(peer.username));
        MergeRecordsFor(replica, peer.vars, types, t);
      }
    }
  }

  lemma NothingAfterNewest(full: seq<seq<Byte>>, t: Byte)
    ensures !Touched(full, |full|, |full|, t)
  {
  }

  lemma NamedIsTouched(full: seq<seq<Byte>>, pos: nat, t: Byte)
    requires pos < |full|
    ensures t in Missing(Window(full), pos % KEYS) ==> Touched(full, pos + 1, |full|, t)
  {
    hide Missing, Window, Flatten;
    if t in Missing(Window(full), pos % KEYS) {
      MissingSound(full, pos, t);
      var tail := full[pos + 1..];
      FlattenMember(tail, t);
      var i :| 0 <= i < |tail| && t in tail[i];
      assert t in full[pos + 1 + i];
    }
  }

  /** One event in which s sends no t. */
  lemma StepLeaves(cfg: Config, w: World, e: Event, o: Bytes, s: Bytes, t: Byte)
    requires Invariant(w) && IsPeer(w.st.clients, o, s) && Carried(t)
    requires Silent(e, s, t) && !Pending(w, o, s, t)
    ensures OrderCovered(w.st)
    ensures var w' := Next(cfg, w, e);
            && IsPeer(w'.st.clients, o, s) && !Pending(w', o, s, t)
            && (Unambiguous(w'.st.clients, o, s) ==> Unambiguous(w.st.clients, o, s))
            && (Unambiguous(w.st.clients, o, s) ==>
                  SameAt(Replica(w'.sent(o), CStr(s)), Replica(w.sent(o), CStr(s)), t))
  {
    hide Next, React, PairOk, PlayerOk, Sorted, Entered, Settled, Sync, Peers, Refreshed, SignOn, Refusal,
      ReadApplication, Replica, CStr, Unambiguous, Pending, Carried;
    NextRegistry(cfg, w, e);
    var w' := Next(cfg, w, e);
    if Unambiguous(w'.st.clients, o, s) {
      UnambiguousShrinks(w.st.clients, w'.st.clients, o, s);
    }
    if e.UpdateEvent? && e.who == o {
      OwnTurnLeaves(cfg, w, o, e.packet, e.now, s, t);
    } else {
      OtherStepLeaves(cfg, w, e, o, s, t);
    }
  }

  /** An event of anybody but o sends o nothing. */
  lemma OtherStepLeaves(cfg: Config, w: World, e: Event, o: Bytes, s: Bytes, t: Byte)
    requires Invariant(w) && IsPeer(w.st.clients, o, s)
    requires Silent(e, s, t) && !Pending(w, o, s, t) && !(e.UpdateEvent? && e.who == o)
    ensures OrderCovered(w.st)
    ensures Replica(Next(cfg, w, e).sent(o), CStr(s)) == Replica(w.sent(o), CStr(s)) &&
            !Pending(Next(cfg, w, e), o, s, t)
  {
    hide Next, React, PairOk, PlayerOk, Sorted, Entered, Settled, Sync, Peers, Refreshed, SignOn, Refusal,
      ReadApplication, Touched, FateAt, Observed, RevivedVars, FullAfter, Recorded, SameIdentity, Mail, Answered,
      Replica, CStr;
    match e
    case SignOnEvent(p, g) =>
      if Refusal(cfg, w.st, ReadApplication(p)).Some? {
        RefusedUnfolded(cfg, w, p, g);
      } else {
        SignOnUnfolded(cfg, w, p, g);
      }
    case ChatEvent(_, _) =>
      MinorUnfolded(cfg, w, e);
      MinorQuiet(cfg, w, e, o);
    case QueryEvent(_, _) =>
      MinorUnfolded(cfg, w, e);
      MinorQuiet(cfg, w, e, o);
    case OutsideEvent(_, _, _) =>
      MinorUnfolded(cfg, w, e);
      MinorQuiet(cfg, w, e, o);
    case UpdateEvent(me, p, now) =>
      if me !in w.st.clients {
        IdleUpdate(cfg, w, me, p, now);
      } else {
        UpdateUnfolded(cfg, w, me, p, now);
        if me == s && w.links(o, s).Some? {
          assert PairOk(w, o, s);
          LinkInRange(w, o, s);
          SilentUpdate(w.links(o, s).value, w.full(s), p, t);
        }
      }
  }

  lemma OwnTurnLeaves(cfg: Config, w: World, o: Bytes, p: Packet, now: int, s: Bytes, t: Byte)
    requires Invariant(w) && IsPeer(w.st.clients, o, s) && Carried(t) && !Pending(w, o, s, t)
    ensures OrderCovered(w.st)
    ensures var w' := Next(cfg, w, UpdateEvent(o, p, now));
            && !Pending(w', o, s, t)
            && (Unambiguous(w.st.clients, o, s) ==>
                  SameAt(Replica(w'.sent(o), CStr(s)), Replica(w.sent(o), CStr(s)), t))
  {
    hide Next, React, SyncOne, Sorted, Entered, Quiet, Observed, CStr, StrLen, Learns, Linked, EqualAt, Unambiguous,
      Touched, Carried, Recorded, Agrees;
    assert PlayerOk(w, s) && PairOk(w, o, s);
    NameFits(w.st, s);
    ObserverUnfolded(cfg, w, o, p, now, s);
    TurnLeaves(w.st.clients[o].keys, w.st.clients[s], w.full(s), w.links(o, s), Replica(w.sent(o), CStr(s)), t);
  }

  lemma SilentUpdate(l: Link, full: seq<seq<Byte>>, p: Packet, t: Byte)
    requires t !in Tags(Records(PeerGrammar, p, 1)) && l.pos < |full| && !Touched(full, l.pos + 1, |full|, t)
    ensures var longer := FullAfter(full, p); !Touched(longer, l.pos + 1, |longer|, t)
  {
    hide Touched, Records;
    var rs := Records(PeerGrammar, p, 1);
    if rs != [] {
      TouchedAppend(full, Tags(rs), l.pos + 1, |full|, t);
    }
  }

  /** Through any events in which s sends no t, o's replica of t stays the same. */
  lemma {:induction false} SilenceLeaves(cfg: Config, events: seq<Event>, more: seq<Event>, o: Bytes, s: Bytes, t: Byte)
    requires Carried(t) && forall e :: e in more ==> Silent(e, s, t)
    ensures var w, after := Run(cfg, events), Run(cfg, events + more);
            IsPeer(w.st.clients, o, s) && !Pending(w, o, s, t) ==>
              && IsPeer(after.st.clients, o, s) && !Pending(after, o, s, t)
              && (Unambiguous(after.st.clients, o, s) ==>
                    && Unambiguous(w.st.clients, o, s)
                    && SameAt(Replica(after.sent(o), CStr(s)), Replica(w.sent(o), CStr(s)), t))
    decreases |more|
  {
    hide Next, Silent, Pending, IsPeer, Unambiguous, Carried, Replica, CStr, Invariant;
    if more == [] {
      assert events + more == events;
    } else {
      var front, e := more[..|more| - 1], more[|more| - 1];
      assert forall x :: x in front ==> x in more;
      SilenceLeaves(cfg, events, front, o, s, t);
      LastOf(cfg, events, more);
      RunInvariant(cfg, events + front);
      if IsPeer(Run(cfg, events + front).st.clients, o, s) && !Pending(Run(cfg, events + front), o, s, t) {
        StepLeaves(cfg, Run(cfg, events + front), e, o, s, t);
      }
    }
  }

  lemma LastOf(cfg: Config, events: seq<Event>, more: seq<Event>)
    requires more != []
    ensures Run(cfg, events + more) == Next(cfg, Run(cfg, events + more[..|more| - 1]), more[|more| - 1])
  {
    hide Next;
    var all := events + more;
    assert all[..|all| - 1] == events + more[..|more| - 1];
  }

  // ---------------------------------------------------------------- the sender's value

  /** A healed variable keeps its healed value in every event in which the player does not send it:
      only another revive can write it, and that writes the same value. */
  lemma StepHealed(cfg: Config, w: World, e: Event, s: Bytes, t: Byte, v: Value)
    requires Invariant(w) && s in w.st.clients && Carried(t) && RawRecord(t, Some(v)) in REVIVE
    requires Silent(e, s, t) && w.st.clients[s].vars[t] == v
    ensures OrderCovered(w.st)
    ensures var w' := Next(cfg, w, e); s in w'.st.clients && w'.st.clients[s].vars[t] == v
  {
    hide Next, React, PairOk, Sorted, Entered, Settled, Sync, Peers, Refreshed, SignOn, Refusal, ReadApplication,
      REVIVE, Carried, Recorded, FateAt, Chat, Quiet, SameIdentity, FullAfter, Mail, Answered;
    match e
    case SignOnEvent(p, g) =>
      if Refusal(cfg, w.st, ReadApplication(p)).Some? {
        RefusedUnfolded(cfg, w, p, g);
      } else {
        SignOnUnfolded(cfg, w, p, g);
      }
    case ChatEvent(_, _) =>
      MinorUnfolded(cfg, w, e);
    case QueryEvent(_, _) =>
      MinorUnfolded(cfg, w, e);
    case OutsideEvent(_, _, _) =>
      MinorUnfolded(cfg, w, e);
    case UpdateEvent(me, p, now) =>
      if me !in w.st.clients {
        IdleUpdate(cfg, w, me, p, now);
      } else {
        UpdateUnfolded(cfg, w, me, p, now);
        SettledEffect(w.st.clients, me, p, now);
        if me == s {
          assert PlayerOk(w, s);
          OwnUpdateHealed(w.st.clients[s], w.full(s), p, now, t, v);
        }
      }
  }

  lemma OwnUpdateHealed(c: Session, full: seq<seq<Byte>>, p: Packet, now: int, t: Byte, v: Value)
    requires Recorded(c, full) && (forall m :: m in c.inbox ==> Quiet(m))
    requires Carried(t) && RawRecord(t, Some(v)) in REVIVE
    requires t !in Tags(Records(PeerGrammar, p, 1)) && (FateAt(c, p, now) != Fate.Revived ==> c.vars[t] == v)
    ensures Refreshed(c, p, now).0.vars[t] == v
  {
    hide Refreshed, Records, Recorded, REVIVE, FateAt;
    if FateAt(c, p, now) == Fate.Revived {
      RevivedHealed(c, p, now, t, v);
    } else {
      SenderWrites(c, full, p, now);
    }
  }

  lemma {:induction false} StaysHealed(cfg: Config, events: seq<Event>, more: seq<Event>, s: Bytes, t: Byte, v: Value)
    requires Carried(t) && RawRecord(t, Some(v)) in REVIVE && forall e :: e in more ==> Silent(e, s, t)
    ensures var w, after := Run(cfg, events), Run(cfg, events + more);
            s in w.st.clients && w.st.clients[s].vars[t] == v ==>
              s in after.st.clients && after.st.clients[s].vars[t] == v
    decreases |more|
  {
    hide Next, Silent, Carried, REVIVE, Invariant;
    if more == [] {
      assert events + more == events;
    } else {
      var front, e := more[..|more| - 1], more[|more| - 1];
      assert forall x :: x in front ==> x in more;
      StaysHealed(cfg, events, front, s, t, v);
      LastOf(cfg, events, more);
      RunInvariant(cfg, events + front);
      var w := Run(cfg, events + front);
      if s in w.st.clients && w.st.clients[s].vars[t] == v {
        StepHealed(cfg, w, e, s, t, v);
      }
    }
  }

  // ---------------------------------------------------------------- the exact condition

  /** A revive is not replicated. After any run let s revive by a packet that does not carry t, which o
      has not still to be sent, and let any events follow in which s sends no t, whatever the lag.
      Then s has the healed value, o's replica says of t what it said before the revive, and so o is
      right about t if and only if it already held the healed value. */
  lemma {:induction false} ReviveNotReplicated(cfg: Config, events: seq<Event>, s: Bytes, p: Packet, now: int,
                                               more: seq<Event>, o: Bytes, t: Byte, v: Value)
    requires Carried(t) && RawRecord(t, Some(v)) in REVIVE
    requires t !in Tags(Records(PeerGrammar, p, 1)) && forall e :: e in more ==> Silent(e, s, t)
    ensures var w, after := Run(cfg, events), Run(cfg, events + ([UpdateEvent(s, p, now)] + more));
            IsPeer(w.st.clients, o, s) && FateAt(w.st.clients[s], p, now) == Fate.Revived && !Pending(w, o, s, t) &&
            Unambiguous(after.st.clients, o, s) ==>
              && s in after.st.clients && after.st.clients[s].vars[t] == v
              && SameAt(Replica(after.sent(o), CStr(s)), Replica(w.sent(o), CStr(s)), t)
              && (Current(after, o, s, t) <==> Holds(Replica(w.sent(o), CStr(s)), t, v))
  {
    hide Run, Next, Silent, Pending, SameLevel, Unambiguous, Replica, CStr, REVIVE, FateAt;
    var revive := UpdateEvent(s, p, now);
    var all := [revive] + more;
    assert Silent(revive, s, t) by { SilentPacket(s, p, now, t); }
    SilenceLeaves(cfg, events, all, o, s, t);
    if IsPeer(Run(cfg, events).st.clients, o, s) && FateAt(Run(cfg, events).st.clients[s], p, now) == Fate.Revived {
      HealedByRevive(cfg, events, s, p, now, t, v);
      StaysHealed(cfg, events + [revive], more, s, t, v);
      assert events + [revive] + more == events + all;
    }
  }

  lemma SilentPacket(s: Bytes, p: Packet, now: int, t: Byte)
    requires t !in Tags(Records(PeerGrammar, p, 1))
    ensures Silent(UpdateEvent(s, p, now), s, t)
  {
  }

  lemma HealedByRevive(cfg: Config, events: seq<Event>, s: Bytes, p: Packet, now: int, t: Byte, v: Value)
    requires Carried(t) && RawRecord(t, Some(v)) in REVIVE
    requires s in Run(cfg, events).st.clients && FateAt(Run(cfg, events).st.clients[s], p, now) == Fate.Revived
    ensures var w := Run(cfg, events + [UpdateEvent(s, p, now)]); s in w.st.clients && w.st.clients[s].vars[t] == v
  {
    hide Run, Next, PairOk, PlayerOk, Sorted, Entered, Settled, Sync, Peers, Refreshed, FateAt, REVIVE;
    var w, e := Run(cfg, events), UpdateEvent(s, p, now);
    LastOf(cfg, events, [e]);
    assert events + [e][..0] == events;
    UpdateUnfolded(cfg, w, s, p, now);
    SettledEffect(w.st.clients, s, p, now);
    RevivedHealed(w.st.clients[s], p, now, t, v);
  }
}
