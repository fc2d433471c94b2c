/** Names are cut at their first NUL on the wire, but compared whole at sign-on. What follows from two
    players of one level sharing a wire name, exactly. */
module WireNames {
  import opened Wire
  import opened History
  import opened Clients
  import opened Server
  import opened Registry
  import opened Replication
  import opened Schedules
  import opened Visibility
  import opened Revives
  import opened Speakers
  import opened Gathering

  /** No player of o's level but these two goes by their wire name. */
  ghost predicate OnlyTwo(clients: map<Bytes, Session>, o: Bytes, s: Bytes, n: Bytes)
  {
    && IsPeer(clients, o, s) && IsPeer(clients, o, n) && s != n && CStr(s) == CStr(n)
    && forall m :: IsPeer(clients, o, m) && CStr(m) == CStr(s) ==> m == s || m == n
  }

  // ---------------------------------------------------------------- who is told of whom

  /** Three different usernames; the last two share a wire name. */
  const TRIO: seq<Bytes> := [[66], [65], [65, 0]]

  lemma TrioNames()
    ensures Distinct(TRIO) && forall n :: n in TRIO <==> n == [66] || n == [65] || n == [65, 0]
    ensures CStr([66]) == [66] && CStr([65]) == [65] && CStr([65, 0]) == [65]
  {
    StrLenUnique([65, 0], 1);
    StrLenUnique([65], 1);
    StrLenUnique([66], 1);
    assert [65, 0][..1] == [65] == [65][..1] && [66][..1] == [66];
  }

  lemma TrioPeers(w: World, level: Bytes)
    requires Gathered(w, TRIO, level)
    ensures OnlyTwo(w.st.clients, [66], [65], [65, 0])
    ensures Namesakes(w.st.clients, [66], [65]) == {[65], [65, 0]}
  {
    TrioNames();
    hide CStr, TRIO;
    assert [66] in w.st.clients && [65] in w.st.clients && [65, 0] in w.st.clients;
  }

  /** The shortest failing run: three players of one level, two of which share a wire name. The third is
      told twice of a player of that name, so that it is not told once of either. */
  lemma {:induction false} SharedNameAdmitted(cfg: Config, level: Bytes, g: Garbage)
    requires Allowed(cfg, level)
    ensures var w := Run(cfg, Arrivals(TRIO, level, g));
            && OnlyTwo(w.st.clients, [66], [65], [65, 0])
            && Count(w.sent([66]), [65]) + Count(w.st.clients[[66]].inbox, [65]) == 2
  {
    hide Run, Count, Arrivals, CStr, Gathered, Idle, Namesakes;
    TrioNames();
    AllAdmitted(cfg, TRIO, level, g);
    var events := Arrivals(TRIO, level, g);
    TrioPeers(Run(cfg, events), level);
    EveryoneTold(cfg, events, [66], [65]);
  }

  // ---------------------------------------------------------------- two players under one name

  lemma StillOnlyTwo(a: map<Bytes, Session>, b: map<Bytes, Session>, o: Bytes, s: Bytes, n: Bytes)
    requires OnlyTwo(a, o, s, n) && a.Keys == b.Keys && forall x :: x in a ==> x in b && SameIdentity(a[x], b[x])
    ensures OnlyTwo(b, o, s, n)
  {
    hide CStr;
    assert forall x :: x in b ==> x in a.Keys;
    assert forall m :: IsPeer(a, o, m) <==> IsPeer(b, o, m);
  }

  /** The two updates that put the same variable into both players' histories. */
  lemma BothSent(cfg: Config, w: World, o: Bytes, s: Bytes, n: Bytes, p: Packet, p2: Packet, now: int, t: Byte)
    requires Invariant(w) && OnlyTwo(w.st.clients, o, s, n) && Reachable(w, o, s) && Reachable(w, o, n)
    requires t in Tags(Records(PeerGrammar, p, 1)) && t in Tags(Records(PeerGrammar, p2, 1))
    ensures OrderCovered(w.st)
    ensures var w1 := Next(cfg, w, UpdateEvent(s, p, now));
            && Invariant(w1)
            && var w2 := Next(cfg, w1, UpdateEvent(n, p2, now));
            && Invariant(w2) && OnlyTwo(w2.st.clients, o, s, n)
            && t in SentTypes(w2.st.clients[o].keys, w2.st.clients[s])
            && t in SentTypes(w2.st.clients[o].keys, w2.st.clients[n])
  {
    hide Next, Records, Invariant, SentTypes, OnlyTwo, CStr, SameIdentity, Unambiguous, SameLevel;
    OnlyTwoPeers(w.st.clients, o, s, n);
    NextKeepsInvariant(cfg, w, UpdateEvent(s, p, now));
    var w1 := Next(cfg, w, UpdateEvent(s, p, now));
    SentOnce(cfg, w, o, s, p, now, t);
    Bystander(cfg, w, s, p, now, o, n);
    StillOnlyTwo(w.st.clients, w1.st.clients, o, s, n);
    OnlyTwoPeers(w1.st.clients, o, s, n);
    NextKeepsInvariant(cfg, w1, UpdateEvent(n, p2, now));
    var w2 := Next(cfg, w1, UpdateEvent(n, p2, now));
    SentOnce(cfg, w1, o, n, p2, now, t);
    Bystander(cfg, w1, n, p2, now, o, s);
    StillOnlyTwo(w1.st.clients, w2.st.clients, o, s, n);
    OnlyTwoPeers(w2.st.clients, o, s, n);
    NewestSends(w, w2, o, s, t);
    NewestSends(w1, w2, o, n, t);
    SendsIff(w2, o, s, t);
    SendsIff(w2, o, n, t);
  }

  lemma OnlyTwoPeers(clients: map<Bytes, Session>, o: Bytes, s: Bytes, n: Bytes)
    requires OnlyTwo(clients, o, s, n)
    ensures IsPeer(clients, o, s) && IsPeer(clients, o, n) && s != n && o != s && o != n
  {
    hide CStr;
  }

  /** Two players under one wire name. After any run in which o has met both and will be sent what
      they send next, let both send t, and then o update: o's replica is right about both if and only if the two now
      have the same value, so it misleads o about one of them whenever they differ. */
  lemma {:induction false} SharedNameMisleads(cfg: Config, events: seq<Event>, o: Bytes, s: Bytes, n: Bytes,
                                              p: Packet, p2: Packet, q: Packet, now: int, t: Byte)
    requires t in Tags(Records(PeerGrammar, p, 1)) && t in Tags(Records(PeerGrammar, p2, 1)) && Carried(t)
    ensures var w, sends := Run(cfg, events), [UpdateEvent(s, p, now), UpdateEvent(n, p2, now)];
            var after := Run(cfg, events + sends + [UpdateEvent(o, q, now)]);
            OnlyTwo(w.st.clients, o, s, n) && Reachable(w, o, s) && Reachable(w, o, n) ==>
              && s in after.st.clients && n in after.st.clients
              && (Current(after, o, s, t) && Current(after, o, n, t) <==>
                  after.st.clients[s].vars[t] == after.st.clients[n].vars[t])
  {
    hide Run, Next, Records, Invariant, SentTypes, OnlyTwo, Reachable, Current, CStr, SameLevel, LastSpeaker, Peers;
    var w, e1, e2 := Run(cfg, events), UpdateEvent(s, p, now), UpdateEvent(n, p2, now);
    RunInvariant(cfg, events);
    if OnlyTwo(w.st.clients, o, s, n) && Reachable(w, o, s) && Reachable(w, o, n) {
      BothSent(cfg, w, o, s, n, p, p2, now, t);
      RunTwice(cfg, events, e1, e2);
      var w2 := Run(cfg, events + [e1, e2]);
      OnlyTwoPeers(w2.st.clients, o, s, n);
      EitherSpeaks(w2, o, s, n, t);
      CurrentAfterTurnIff(cfg, events + [e1, e2], o, q, now, s, t);
      CurrentAfterTurnIff(cfg, events + [e1, e2], o, q, now, n, t);
      LastOf(cfg, events + [e1, e2], [UpdateEvent(o, q, now)]);
      assert events + [e1, e2] + [UpdateEvent(o, q, now)][..0] == events + [e1, e2];
      Bystander(cfg, w2, o, q, now, s, s);
      Bystander(cfg, w2, o, q, now, n, n);
    }
  }

  lemma EitherSpeaks(w: World, o: Bytes, s: Bytes, n: Bytes, t: Byte)
    requires Invariant(w) && OnlyTwo(w.st.clients, o, s, n)
    requires t in SentTypes(w.st.clients[o].keys, w.st.clients[s])
    ensures CStr(s) == CStr(n)
    ensures var speaker := Speaker(w.st, o, CStr(s), t); speaker.Some? && speaker.value in {s, n}
  {
    hide PairOk, PlayerOk, Sorted, Entered, CStr, SentTypes, LastSpeaker, Peers;
    SpeakerFound(w.st.clients, Peers(w.st.clients, w.st.order, o), w.st.clients[o].keys, CStr(s), t, s);
    var m := Speaker(w.st, o, CStr(s), t).value;
    assert IsPeer(w.st.clients, o, m);
  }

  // ---------------------------------------------------------------- a run that goes wrong

  /** Both namesakes say something, and the third player meets them. */
  lemma TrioMeets(cfg: Config, w: World, level: Bytes, now: int)
    requires Invariant(w) && Gathered(w, TRIO, level) && Idle(w)
    ensures OrderCovered(w.st)
    ensures var w1 := Next(cfg, w, UpdateEvent([65], Crouch(true), now));
            && Invariant(w1)
            && var w2 := Next(cfg, w1, UpdateEvent([65, 0], Crouch(true), now));
            && Invariant(w2)
            && var w3 := Next(cfg, w2, UpdateEvent([66], NOTHING, now));
            && OnlyTwo(w3.st.clients, [66], [65], [65, 0]) && Reachable(w3, [66], [65]) && Reachable(w3, [66], [65, 0])
  {
    hide Next, Invariant, OnlyTwo, CStr, Crouch, NOTHING, SameIdentity, SameLevel, Gathered;
    var o: Bytes, s: Bytes, n: Bytes := [66], [65], [65, 0];
    TrioPeers(w, level);
    OnlyTwoPeers(w.st.clients, o, s, n);
    NextKeepsInvariant(cfg, w, UpdateEvent(s, Crouch(true), now));
    var w1 := Next(cfg, w, UpdateEvent(s, Crouch(true), now));
    CrouchTurn(cfg, w, s, true, now);
    Bystander(cfg, w, s, Crouch(true), now, o, n);
    StillOnlyTwo(w.st.clients, w1.st.clients, o, s, n);
    OnlyTwoPeers(w1.st.clients, o, s, n);
    NextKeepsInvariant(cfg, w1, UpdateEvent(n, Crouch(true), now));
    var w2 := Next(cfg, w1, UpdateEvent(n, Crouch(true), now));
    CrouchTurn(cfg, w1, n, true, now);
    Bystander(cfg, w1, n, Crouch(true), now, o, s);
    StillOnlyTwo(w1.st.clients, w2.st.clients, o, s, n);
    OnlyTwoPeers(w2.st.clients, o, s, n);
    MeetsBoth(cfg, w2, o, s, n, now);
  }

  lemma MeetsBoth(cfg: Config, w: World, o: Bytes, s: Bytes, n: Bytes, now: int)
    requires Invariant(w) && OnlyTwo(w.st.clients, o, s, n) && w.links(o, s) == None && w.links(o, n) == None
    requires w.full(s) != [] && w.full(n) != []
    ensures OrderCovered(w.st)
    ensures var w1 := Next(cfg, w, UpdateEvent(o, NOTHING, now));
            OnlyTwo(w1.st.clients, o, s, n) && Reachable(w1, o, s) && Reachable(w1, o, n)
  {
    hide Next, Invariant, OnlyTwo, CStr, NOTHING, SameIdentity, SameLevel;
    OnlyTwoPeers(w.st.clients, o, s, n);
    MeetingTurn(cfg, w, o, s, NOTHING, now);
    MeetingTurn(cfg, w, o, n, NOTHING, now);
    Bystander(cfg, w, o, NOTHING, now, s, s);
    Bystander(cfg, w, o, NOTHING, now, n, n);
    StillOnlyTwo(w.st.clients, Next(cfg, w, UpdateEvent(o, NOTHING, now)).st.clients, o, s, n);
  }

  function Meeting(now: int): seq<Event>
  {
    [UpdateEvent([65], Crouch(true), now), UpdateEvent([65, 0], Crouch(true), now), UpdateEvent([66], NOTHING, now)]
  }

  function Parting(now: int): seq<Event>
  {
    [UpdateEvent([65], Crouch(true), now), UpdateEvent([65, 0], Crouch(false), now)]
  }

  /** From an empty server: three players sign on to one level, two of them under one wire name, all of
      them update, then one namesake crouches, the other stands, and the third player updates. In this
      run nobody lags, and yet the third player is wrong about one of the two. */
  lemma {:induction false} SharedNameFails(cfg: Config, level: Bytes, g: Garbage, now: int)
    requires Allowed(cfg, level)
    ensures var events := Arrivals(TRIO, level, g) + Meeting(now) + Parting(now) + [UpdateEvent([66], NOTHING, now)];
            var w := Run(cfg, events);
            && OnlyTwo(w.st.clients, [66], [65], [65, 0])
            && !(Current(w, [66], [65], CROUCH) && Current(w, [66], [65, 0], CROUCH))
  {
    hide Run, Arrivals, OnlyTwo, Current, Invariant, Gathered, Idle, CStr, Crouch, NOTHING, Next, Reachable;
    var arrivals := Arrivals(TRIO, level, g);
    TrioNames();
    AllAdmitted(cfg, TRIO, level, g);
    RunInvariant(cfg, arrivals);
    TrioMeets(cfg, Run(cfg, arrivals), level, now);
    RunMeeting(cfg, arrivals, now);
    var met := arrivals + Meeting(now);
    CrouchRecords(true);
    CrouchRecords(false);
    SharedNameMisleads(cfg, met, [66], [65], [65, 0], Crouch(true), Crouch(false), NOTHING, now, CROUCH);
    TrioParts(cfg, met, now);
  }

  lemma RunMeeting(cfg: Config, events: seq<Event>, now: int)
    requires Invariant(Run(cfg, events))
    requires Invariant(Next(cfg, Run(cfg, events), Meeting(now)[0]))
    requires Invariant(Next(cfg, Next(cfg, Run(cfg, events), Meeting(now)[0]), Meeting(now)[1]))
    ensures Run(cfg, events + Meeting(now)) ==
            Next(cfg, Next(cfg, Next(cfg, Run(cfg, events), Meeting(now)[0]), Meeting(now)[1]), Meeting(now)[2])
  {
    hide Next, Run, Invariant, Crouch, NOTHING;
    var m := Meeting(now);
    LastOf(cfg, events, m);
    assert m[..|m| - 1] == [m[0], m[1]];
    RunTwice(cfg, events, m[0], m[1]);
  }

  /** The two part company: one crouches, the other stands, and an update of the third changes neither. */
  lemma TrioParts(cfg: Config, events: seq<Event>, now: int)
    requires OnlyTwo(Run(cfg, events).st.clients, [66], [65], [65, 0])
    ensures var w := Run(cfg, events + Parting(now) + [UpdateEvent([66], NOTHING, now)]);
            && OnlyTwo(w.st.clients, [66], [65], [65, 0]) && [65] in w.st.clients && [65, 0] in w.st.clients
            && w.st.clients[[65]].vars[CROUCH] == BoolValue(true) &&
                 w.st.clients[[65, 0]].vars[CROUCH] == BoolValue(false)
  {
    hide Run, Next, Invariant, OnlyTwo, CStr, Crouch, NOTHING, SameIdentity, SameLevel;
    var o: Bytes, s: Bytes, n: Bytes := [66], [65], [65, 0];
    var w := Run(cfg, events);
    RunInvariant(cfg, events);
    OnlyTwoPeers(w.st.clients, o, s, n);
    NextKeepsInvariant(cfg, w, Parting(now)[0]);
    var w1 := Next(cfg, w, Parting(now)[0]);
    CrouchTurn(cfg, w, s, true, now);
    Bystander(cfg, w, s, Crouch(true), now, o, n);
    StillOnlyTwo(w.st.clients, w1.st.clients, o, s, n);
    OnlyTwoPeers(w1.st.clients, o, s, n);
    NextKeepsInvariant(cfg, w1, Parting(now)[1]);
    var w2 := Next(cfg, w1, Parting(now)[1]);
    CrouchTurn(cfg, w1, n, false, now);
    Bystander(cfg, w1, n, Crouch(false), now, o, s);
    StillOnlyTwo(w1.st.clients, w2.st.clients, o, s, n);
    OnlyTwoPeers(w2.st.clients, o, s, n);
    RunTwice(cfg, events, Parting(now)[0], Parting(now)[1]);
    assert events + Parting(now) == events + [Parting(now)[0], Parting(now)[1]];
    var turn := UpdateEvent(o, NOTHING, now);
    LastOf(cfg, events + Parting(now), [turn]);
    assert events + Parting(now) + [turn][..0] == events + Parting(now);
    Bystander(cfg, w2, o, NOTHING, now, s, s);
    Bystander(cfg, w2, o, NOTHING, now, n, n);
    StillOnlyTwo(w2.st.clients, Next(cfg, w2, turn).st.clients, o, s, n);
    OnlyTwoPeers(Next(cfg, w2, turn).st.clients, o, s, n);
  }
}
