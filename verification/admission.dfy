/** Who is admitted, what a refused newcomer is told, and the state an admitted one starts in. */
module Admission {
  import opened Wire
  import opened History
  import opened Clients
  import opened Server
  import opened Registry
  import opened Replication
  import opened Messages
  import opened Inbox
  import opened Queries

  // ---------------------------------------------------------------- the three tests

  predicate Named(a: Application)
  {
    |a.levelName| >= 2 && |a.levelPath| >= 2
  }

  predicate OnConfigured(cfg: Config, path: Bytes)
  {
    exists i :: 0 <= i < |cfg.maps| && cfg.maps[i].1 == path
  }

  predicate Untaken(st: State, name: Bytes)
  {
    forall n :: n in st.clients ==> st.clients[n].username != name
  }

  /** The three tests together. */
  predicate Admissible(cfg: Config, st: State, a: Application)
  {
    Named(a) && (cfg.allowOtherMaps || OnConfigured(cfg, a.levelPath)) && Untaken(st, a.username)
  }

  /** What an application that fails a test is answered: the text of the first it fails. */
  function Complaint(cfg: Config, a: Application): string
  {
    if !Named(a) then "The level you are trying to use is not valid!"
    else if !cfg.allowOtherMaps && !OnConfigured(cfg, a.levelPath) then "This level is not allowed on this server!"
    else "Already a user with that username!"
  }

  /** An error as a game client reads it: type 10, the text, and nothing behind it. */
  predicate Rejects(m: Bytes, text: string)
  {
    Whole(m).At(0) == 10 && Spells(ReadString(Whole(m), 1), text) && |m| == 2 + |text|
  }

  lemma {:induction false} ErrorReadsBack(text: string)
    requires Ascii(text) && |text| <= 127
    ensures Rejects(ErrorMessage(Text(text)), text)
  {
    var s := Text(text);
    TextSpells(text);
    assert forall i :: 0 <= i < |s| ==> s[i] as int == text[i] as int;
    StrLenUnique(s, |s|);
    assert s[..|s|] == s;
    var m := ErrorMessage(s);
    assert m == [10] + EncodeString(s) + [];
    HeadRead(m, 10, s, []);
  }

  lemma NotValidText()
    ensures Rejects(ErrorMessage(Text("The level you are trying to use is not valid!")),
                    "The level you are trying to use is not valid!")
  {
    hide ErrorMessage, Text, Rejects, Ascii;
    AsciiNotValid();
    ErrorReadsBack("The level you are trying to use is not valid!");
  }

  lemma AsciiNotValid()
    ensures Ascii("The level you are trying to use is not valid!")
  {
    AsciiParts();
    hide Ascii;
    assert "The level you are trying to use is not valid!" == "The level you are try" + "ing to use is not valid!";
  }

  lemma AsciiParts()
    ensures Ascii("The level you are try" + "ing to use is not valid!")
  {
    assert Ascii("The level you are try");
    assert Ascii("ing to use is not valid!");
  }

  lemma NotAllowedText()
    ensures Rejects(ErrorMessage(Text("This level is not allowed on this server!")),
                    "This level is not allowed on this server!")
  {
    hide ErrorMessage, Text, Rejects;
    ErrorReadsBack("This level is not allowed on this server!");
  }

  lemma TakenText()
    ensures Rejects(ErrorMessage(Text("Already a user with that username!")), "Already a user with that username!")
  {
    hide ErrorMessage, Text, Rejects;
    ErrorReadsBack("Already a user with that username!");
  }

  /** The verdict on an application, and the answer to a refused one. */
  lemma {:induction false} RefusalIff(cfg: Config, st: State, a: Application)
    ensures var r := Refusal(cfg, st, a);
            if Admissible(cfg, st, a) then r.None? else r.Some? && Rejects(r.value, Complaint(cfg, a))
  {
    hide ErrorMessage, Text, Rejects;
    NotValidText();
    NotAllowedText();
    TakenText();
  }

  /** A sign-on registers the applicant if and only if its level name and path have two bytes or more, other maps
      are allowed or its path is a configured one, and nobody has its username. Otherwise the registry stays as
      it is, and the one reply is the text of the first of these tests that fails. */
  lemma {:induction false} SignOnIff(cfg: Config, st: State, p: Packet, g: Garbage)
    requires WellFormed(st)
    ensures var a, r := ReadApplication(p), SignOn(cfg, st, p, g);
            if Admissible(cfg, st, a) then
              a.username !in st.clients && r.st.clients.Keys == st.clients.Keys + {a.username} &&
              r.st.clients[a.username].levelPath == a.levelPath
            else r.st == st && |r.out| == 1 && Rejects(r.out[0], Complaint(cfg, a))
  {
    hide ReadApplication, Refusal, SignOn, Rejects, Admitted, Named, OnConfigured, Sorted, Entered, Complaint;
    var a := ReadApplication(p);
    SignOnAnswer(cfg, st, p, g);
    if Refusal(cfg, st, a).Some? {
      SignOnRefused(cfg, st, p, g);
    } else {
      SignOnEffect(cfg, st, p, g);
      AdmittedEntered(cfg, st, p, g);
      Taken(st, a.username);
      AdmittedPath(cfg, a, g);
    }
  }

  lemma Taken(st: State, name: Bytes)
    requires WellFormed(st)
    ensures Untaken(st, name) <==> name !in st.clients
  {
    hide Sorted;
    assert forall n :: n in st.clients ==> Entered(st.clients[n], n);
  }

  lemma AdmittedPath(cfg: Config, a: Application, g: Garbage)
    ensures Admitted(cfg, a, g).levelPath == a.levelPath
  {
  }

  lemma RefusedWith(cfg: Config, st: State, p: Packet, g: Garbage)
    requires OrderCovered(st) && Refusal(cfg, st, ReadApplication(p)).Some?
    ensures SignOn(cfg, st, p, g) == Reaction(st, [Refusal(cfg, st, ReadApplication(p)).value])
  {
    hide ReadApplication, Refusal, Admitted;
  }

  lemma SignOnAnswer(cfg: Config, st: State, p: Packet, g: Garbage)
    requires OrderCovered(st)
    ensures var a := ReadApplication(p);
            if Admissible(cfg, st, a) then Refusal(cfg, st, a).None?
            else
              var out := SignOn(cfg, st, p, g).out;
              Refusal(cfg, st, a).Some? && |out| == 1 && Rejects(out[0], Complaint(cfg, a))
  {
    hide ReadApplication, Refusal, SignOn, Rejects, Admissible, Complaint;
    var a := ReadApplication(p);
    RefusalIff(cfg, st, a);
    if Refusal(cfg, st, a).Some? {
      RefusedWith(cfg, st, p, g);
    }
  }

  /** On a server that allows no other maps, in every run, every registered player is on a configured path. */
  lemma {:induction false} AllOnConfigured(cfg: Config, events: seq<Event>)
    ensures !cfg.allowOtherMaps ==>
              var clients := Run(cfg, events).st.clients;
              forall n :: n in clients ==> OnConfigured(cfg, clients[n].levelPath)
  {
    hide Next, React, Invariant, OnConfigured, WellFormed;
    if events == [] {
      assert Run(cfg, events).st.clients == map[];
    } else {
      var before, e := events[..|events| - 1], events[|events| - 1];
      AllOnConfigured(cfg, before);
      RegistryInvariant(cfg, before);
      if !cfg.allowOtherMaps {
        StaysOnConfigured(cfg, Run(cfg, before), e);
      }
    }
  }

  lemma StaysOnConfigured(cfg: Config, w: World, e: Event)
    requires WellFormed(w.st) && !cfg.allowOtherMaps
    requires forall n :: n in w.st.clients ==> OnConfigured(cfg, w.st.clients[n].levelPath)
    ensures forall n :: n in Next(cfg, w, e).st.clients ==> OnConfigured(cfg, Next(cfg, w, e).st.clients[n].levelPath)
  {
    hide Next, React, OnConfigured, SignOn, Rejects, ReadApplication, Sorted, Entered, Named, Untaken;
    NextRegistry(cfg, w, e);
    if e.SignOnEvent? {
      SignOnIff(cfg, w.st, e.packet, e.garbage);
      SignOnNext(cfg, w, e.packet, e.garbage);
    } else {
      NobodyNew(cfg, w, e);
    }
  }

  lemma NobodyNew(cfg: Config, w: World, e: Event)
    requires WellFormed(w.st) && !e.SignOnEvent?
    ensures Next(cfg, w, e).st.clients.Keys == if e.DisconnectEvent? then {} else w.st.clients.Keys
  {
    hide Next, React, Sorted, Entered, Settled, Sync, Peers, Refreshed, FateAt, FullAfter, Observed, Mail, Answered;
    match e
    case DisconnectEvent =>
      DisconnectUnfolded(cfg, w);
    case UpdateEvent(me, p, now) =>
      if me in w.st.clients {
        UpdateUnfolded(cfg, w, me, p, now);
      } else {
        IdleUpdate(cfg, w, me, p, now);
      }
    case ChatEvent(_, _) =>
      MinorUnfolded(cfg, w, e);
    case QueryEvent(_, _) =>
      MinorUnfolded(cfg, w, e);
    case OutsideEvent(_, _, _) =>
      MinorUnfolded(cfg, w, e);
  }

  /** A client whose sign-on was refused has no name, no level and no messages; the first thing it sends after
      that leaves the registry as it is. */
  lemma {:induction false} RefusedReachesNobody(st: State, g: Garbage, p: Packet, now: int)
    requires WellFormed(st)
    ensures var c := NewSession(g);
            && c.username == c.team == c.character == c.levelName == c.levelPath == [] && c.inbox == [] && !c.signedOn
            && OutsideState(st, c, p, now) == st
  {
    OutsiderReachesNobody(st, NewSession(g), p, now);
    hide OutsideState, Sorted, Entered;
  }

  // ---------------------------------------------------------------- an admitted player

  /** The level name is that of the first configured map with this path, up to its first NUL, or the one given if
      there is no such map. */
  lemma {:induction false} LevelNameIs(maps: seq<(Bytes, Bytes)>, path: Bytes, given: Bytes)
    ensures var name := LevelName(maps, path, given);
            || (name == given && forall j :: 0 <= j < |maps| ==> CStr(maps[j].1) != path)
            || exists i :: 0 <= i < |maps| && CStr(maps[i].1) == path && name == CStr(maps[i].0) &&
                           forall j :: 0 <= j < i ==> CStr(maps[j].1) != path
  {
    hide CStr;
    if maps != [] && path != CStr(maps[0].1) {
      LevelNameIs(maps[1..], path, given);
      assert forall j :: 0 < j < |maps| ==> maps[j] == maps[1..][j - 1];
      var name := LevelName(maps[1..], path, given);
      if i :| 0 <= i < |maps| - 1 && CStr(maps[1..][i].1) == path && name == CStr(maps[1..][i].0) &&
              forall j :: 0 <= j < i ==> CStr(maps[1..][j].1) != path {
        assert CStr(maps[i + 1].1) == path && name == CStr(maps[i + 1].0);
      }
    } else if maps != [] {
      assert CStr(maps[0].1) == path;
    }
  }

  /** A newcomer is well (1.0f in the healths, 10.0f of blood, everything else 0.0f, 0 or false), stands where it
      asked to, with its teleport position there, and has neither history, nor keys, nor messages. Its velocities
      and its death flag are whatever they were. */
  lemma {:induction false} NewcomerStart(cfg: Config, a: Application, g: Garbage)
    ensures var c := Admitted(cfg, a, g);
            && c.username == c.team == a.username && c.character == a.character && c.levelPath == a.levelPath
            && c.levelName == LevelName(cfg.maps, a.levelPath, a.levelName) && c.signedOn && c.changed == {19, 20, 21}
            && (forall t :: t in {0, 1, 2, 3, 4, 5, 18, 24} ==> c.vars[t] == BoolValue(false))
            && (forall t :: t in {14, 15, 16, 17} ==> c.vars[t] == IntValue(0))
            && (forall t :: t in {7, 8, 9, 10} ==> c.vars[t] == FloatValue(Single(0, 0, -128, 63)))
            && c.vars[11] == FloatValue(Single(0, 0, 32, 65))
            && (forall t :: t in {6, 12, 13, 22, 23} ==> c.vars[t] == FloatValue(Single(0, 0, 0, 0)))
            && c.vars[19] == c.saved.x == FloatValue(a.posx)
            && c.vars[20] == c.saved.y == FloatValue(a.posy)
            && c.vars[21] == c.saved.z == FloatValue(a.posz)
            && c.vars[25] == FloatValue(g.velx) && c.vars[26] == FloatValue(g.vely) && c.vars[27] == FloatValue(g.velz)
            && c.history == [] && c.historyIndex == 0 && c.keys == map[] && c.inbox == []
            && c.timeOfDeath == 0 && c.deathChanged == g.deathChanged
  {
    hide LevelName, DefaultValue;
    Defaults();
    AdmittedVars(cfg, a, g);
    AdmittedRest(cfg, a, g);
    hide Admitted;
  }

  lemma AdmittedVars(cfg: Config, a: Application, g: Garbage)
    ensures var vars := Admitted(cfg, a, g).vars;
            && (forall t: Byte :: 0 <= t < 19 || 22 <= t <= 24 ==> vars[t] == DefaultValue(t))
            && vars[19] == FloatValue(a.posx) && vars[20] == FloatValue(a.posy) && vars[21] == FloatValue(a.posz)
            && vars[25] == FloatValue(g.velx) && vars[26] == FloatValue(g.vely) && vars[27] == FloatValue(g.velz)
  {
    hide Admitted, DefaultValue;
    forall t: Byte | 0 <= t < 19 || 22 <= t <= 24
      ensures Admitted(cfg, a, g).vars[t] == DefaultValue(t)
    {
      AdmittedVar(cfg, a, g, t);
    }
    AdmittedFields(cfg, a, g);
    AdmittedVelocities(cfg, a, g);
  }

  lemma AdmittedVar(cfg: Config, a: Application, g: Garbage, t: Byte)
    requires 0 <= t < 19 || 22 <= t <= 24
    ensures Admitted(cfg, a, g).vars[t] == DefaultValue(t)
  {
    hide LevelName, DefaultValue, NewSession;
    SetLeaves(NewSession(g), a, t);
    InitialVar(g, t);
  }

  lemma SetLeaves(c: Session, a: Application, t: Byte)
    requires 0 <= t < 19 || 22 <= t < 28
    ensures Set(Set(Set(c, POSITION_X, FloatValue(a.posx)), POSITION_Y, FloatValue(a.posy)),
                POSITION_Z, FloatValue(a.posz)).vars[t] == c.vars[t]
  {
  }

  lemma InitialVar(g: Garbage, t: Byte)
    requires 0 <= t < 25
    ensures NewSession(g).vars[t] == DefaultValue(t)
  {
    hide DefaultValue;
  }

  lemma AdmittedVelocities(cfg: Config, a: Application, g: Garbage)
    ensures var vars := Admitted(cfg, a, g).vars;
            vars[25] == FloatValue(g.velx) && vars[26] == FloatValue(g.vely) && vars[27] == FloatValue(g.velz)
  {
    hide LevelName, DefaultValue;
  }

  lemma AdmittedRest(cfg: Config, a: Application, g: Garbage)
    ensures var c := Admitted(cfg, a, g);
            && c.username == c.team == a.username && c.character == a.character && c.levelPath == a.levelPath
            && c.levelName == LevelName(cfg.maps, a.levelPath, a.levelName) && c.signedOn && c.changed == {19, 20, 21}
            && c.saved == Spot(FloatValue(a.posx), FloatValue(a.posy), FloatValue(a.posz))
            && c.history == [] && c.historyIndex == 0 && c.keys == map[] && c.inbox == []
            && c.timeOfDeath == 0 && c.deathChanged == g.deathChanged
  {
    hide LevelName, DefaultValue;
  }

  lemma Defaults()
    ensures forall t :: t in {0, 1, 2, 3, 4, 5, 18, 24} ==> DefaultValue(t) == BoolValue(false)
    ensures forall t :: t in {14, 15, 16, 17} ==> DefaultValue(t) == IntValue(0)
    ensures forall t :: t in {7, 8, 9, 10} ==> DefaultValue(t) == FloatValue(Single(0, 0, -128, 63))
    ensures DefaultValue(11) == FloatValue(Single(0, 0, 32, 65))
    ensures forall t :: t in {6, 12, 13, 22, 23} ==> DefaultValue(t) == FloatValue(Single(0, 0, 0, 0))
  {
  }

  /** The welcome (type 0) carries the refresh rate and then the username, the welcome text, the team, the
      character and the level name, each up to its first NUL, to its end, if and only if none of these is longer
      than 127 then. */
  lemma {:induction false} WelcomeReadsBack(cfg: Config, c: Session)
    ensures var m, ss := WelcomeMessage(cfg, c), [c.username, cfg.welcome, c.team, c.character, c.levelName];
            && Whole(m).At(0) == 0
            && HostFloat(m, 1) == FloatValue(cfg.refreshRate)
            && (ReadStrings(Whole(m), 5, 5) == Shown(ss) <==> Short(ss))
            && (Short(ss) ==> AfterStrings(Whole(m), 5, 5) == |m|)
  {
    var m, ss := WelcomeMessage(cfg, c), [c.username, cfg.welcome, c.team, c.character, c.levelName];
    WelcomeParts(cfg, c);
    hide WelcomeMessage, Strings, ReadStrings, AfterStrings, Shown, Short, EmitValue;
    FloatField(Whole(m), 1, cfg.refreshRate, Strings(ss));
    assert Strings(ss) + [] == Strings(ss);
    StringsReadBack(Whole(m), 5, ss, []);
  }

  lemma WelcomeParts(cfg: Config, c: Session)
    ensures var m := WelcomeMessage(cfg, c);
            && |m| > 0 && m[0] == 0
            && m[1..] == EmitValue(FloatValue(cfg.refreshRate)) +
                 Strings([c.username, cfg.welcome, c.team, c.character, c.levelName])
  {
    hide EncodeString, EmitValue, Strings;
    var u, w, t := EncodeString(c.username), EncodeString(cfg.welcome), EncodeString(c.team);
    Regrouped([0] + EmitValue(FloatValue(cfg.refreshRate)) + u + w, t, EncodeString(c.character),
              EncodeString(c.levelName));
    Regrouped([0] + EmitValue(FloatValue(cfg.refreshRate)), u, w, t + (EncodeString(c.character) +
      EncodeString(c.levelName)));
    FiveStrings(c.username, cfg.welcome, c.team, c.character, c.levelName);
  }

  lemma Regrouped(h: Bytes, a: Bytes, b: Bytes, c: Bytes)
    ensures h + a + b + c == h + (a + (b + c))
  {
  }

  lemma FiveStrings(a: Bytes, b: Bytes, c: Bytes, d: Bytes, e: Bytes)
    ensures Strings([a, b, c, d, e]) ==
            EncodeString(a) + (EncodeString(b) + (EncodeString(c) + (EncodeString(d) + EncodeString(e))))
  {
    hide EncodeString, Strings;
    var tail := [c, d, e];
    assert [a, b, c, d, e] == [a] + ([b] + tail);
    StringsCons(a, [b] + tail);
    StringsCons(b, tail);
    ThreeStrings(c, d, e);
  }

  // ---------------------------------------------------------------- what the others are told

  /** A SpawnCharacter message (type 3) with the applicant's name twice, its character and its position, at its end. */
  ghost predicate Spawns(m: Bytes, a: Application)
  {
    var i := AfterStrings(Whole(m), 1, 3);
    && Whole(m).At(0) == 3
    && ReadStrings(Whole(m), 1, 3) == [CStr(a.username), CStr(a.username), CStr(a.character)]
    && HostFloat(m, i) == FloatValue(a.posx) && HostFloat(m, i + 4) == FloatValue(a.posy)
    && HostFloat(m, i + 8) == FloatValue(a.posz) && i + 12 == |m|
  }

  /** Everybody on the level of an admitted newcomer ends with two more messages: that it has entered, which reads so
      if and only if its name has no NUL and at most 105 characters, and its character. Nobody else gets any. */
  lemma {:induction false} NewcomerTold(cfg: Config, st: State, p: Packet, g: Garbage, n: Bytes)
    requires WellFormed(st) && n in st.clients && Admissible(cfg, st, ReadApplication(p))
    ensures n in SignOn(cfg, st, p, g).st.clients
    ensures var a, before, after := ReadApplication(p), st.clients[n].inbox, SignOn(cfg, st, p, g).st.clients[n].inbox;
            if st.clients[n].levelPath != a.levelPath then after == before
            else
              && |after| == |before| + 2 && after[..|before|] == before
              && (Announces(after[|before|], a.username, " has entered the room.") <==>
                  0 !in a.username && |a.username| <= 105)
              && Spawns(after[|before| + 1], a)
  {
    hide SignOn, ReadApplication, Refusal, Admissible, Announces, Spawns, Sorted, Entered, EnteredNotice, SpawnMessage,
      Admitted;
    var a := ReadApplication(p);
    var c := Admitted(cfg, a, g);
    RefusalIff(cfg, st, a);
    SignOnMail(cfg, st, p, g, n);
    NewcomerMail(cfg, st, p, g, n);
    EnteredReadsBack(c);
    AdmittedFields(cfg, a, g);
    ShortApplication(p);
    SpawnedAs(c, a);
  }

  lemma NewcomerMail(cfg: Config, st: State, p: Packet, g: Garbage, n: Bytes)
    requires WellFormed(st) && n in st.clients && Refusal(cfg, st, ReadApplication(p)).None?
    ensures var a := ReadApplication(p);
            var c := Admitted(cfg, a, g);
            AddressedBy(cfg, st, SignOnEvent(p, g), n) ==
            if st.clients[n].levelPath == a.levelPath then [EnteredNotice(c), SpawnMessage(c, c.team)] else []
  {
    hide ReadApplication, Refusal, Admitted, EnteredNotice, SpawnMessage;
  }

  lemma EnteredReadsBack(c: Session)
    ensures Announces(EnteredNotice(c), c.username, " has entered the room.") <==>
            0 !in c.username && |c.username| <= 105
  {
    hide Announces;
    NoticeReadsBack(c.username, " has entered the room.");
  }

  lemma ShortApplication(p: Packet)
    ensures StrLen(ReadApplication(p).username) <= 127 && StrLen(ReadApplication(p).character) <= 127
  {
    hide StrLen;
  }

  lemma SpawnedAs(c: Session, a: Application)
    requires c.username == c.team == a.username && c.character == a.character
    requires c.vars[19] == FloatValue(a.posx) && c.vars[20] == FloatValue(a.posy) && c.vars[21] == FloatValue(a.posz)
    requires StrLen(a.username) <= 127 && StrLen(a.character) <= 127
    ensures Spawns(SpawnMessage(c, c.team), a)
  {
    hide SpawnMessage, ReadStrings, AfterStrings, HostFloat, CStr, StrLen;
    SpawnReadsBack(c, c.team);
    var ss := [c.username, c.team, c.character];
    assert Shown(ss) == [CStr(a.username), CStr(a.username), CStr(a.character)];
  }

  // ---------------------------------------------------------------- what the newcomer is told

  /** The usernames of the players with these numbers. */
  function NamesAt(order: seq<Bytes>, ks: seq<nat>): (names: seq<Bytes>)
    requires forall i :: 0 <= i < |ks| ==> ks[i] < |order|
    ensures |names| == |ks|
  {
    seq(|ks|, i requires 0 <= i < |ks| => order[ks[i]])
  }

  lemma NamesAtSorted(order: seq<Bytes>, ks: seq<nat>)
    requires forall i :: 0 <= i < |ks| ==> ks[i] < |order|
    requires Sorted(order) && Increasing(ks)
    ensures Sorted(NamesAt(order, ks))
  {
    hide Less;
  }

  lemma MatesNamed(st: State, path: Bytes, n: Bytes)
    requires OrderCovered(st)
    ensures var ks := Mates(InOrder(st.clients, st.order), path, |st.order|);
            n in NamesAt(st.order, ks) <==> n in st.clients && st.clients[n].levelPath == path
  {
    var players := InOrder(st.clients, st.order);
    var ks := Mates(players, path, |st.order|);
    MatesAre(players, path, |st.order|);
    hide Mates;
    if n in st.clients && st.clients[n].levelPath == path {
      assert n in st.order;
      var k :| 0 <= k < |st.order| && st.order[k] == n;
      assert players[k].levelPath == path && k in ks;
      var i :| 0 <= i < |ks| && ks[i] == k;
      assert NamesAt(st.order, ks)[i] == n;
    }
    if n in NamesAt(st.order, ks) {
      var i :| 0 <= i < |ks| && NamesAt(st.order, ks)[i] == n;
      assert ks[i] in ks && st.order[ks[i]] == n && players[ks[i]].levelPath == path;
    }
  }

  /** The peers of a newcomer are the players that were on its level before it, in registry order. */
  lemma PeersOfNewcomer(st: State, c: Session)
    requires WellFormed(st) && c.username !in st.clients
    ensures var joined := Registered(st, c);
            && OrderCovered(joined)
            && Peers(joined.clients, joined.order, c.username) ==
               NamesAt(st.order, Mates(InOrder(st.clients, st.order), c.levelPath, |st.order|))
  {
    hide Less, InsertKey, Mates, Entered, Sorted;
    var joined, ks := Registered(st, c), Mates(InOrder(st.clients, st.order), c.levelPath, |st.order|);
    InsertKeyMembers(st.order, c.username);
    InsertKeySorted(st.order, c.username);
    forall n | n in joined.clients
      ensures joined.clients[n].username == n
    {
      if n != c.username {
        NamedByEntry(st.clients[n], n);
      }
    }
    PeersOfRegistered(joined.clients, joined.order, c.username);
    PeersSorted(joined.clients, joined.order, c);
    MatesAre(InOrder(st.clients, st.order), c.levelPath, |st.order|);
    NamesAtSorted(st.order, ks);
    var peers, mates := Peers(joined.clients, joined.order, c.username), NamesAt(st.order, ks);
    forall n: Bytes
      ensures n in peers <==> n in mates
    {
      MatesNamed(st, c.levelPath, n);
    }
    SortedUnique(peers, mates);
  }

  lemma NamedByEntry(c: Session, n: Bytes)
    requires Entered(c, n)
    ensures c.username == n
  {
  }

  /** An admitted newcomer is answered with the welcome and then with one message for each player that was on its
      level before it, in registry order, that introduces this player by its name, twice. */
  lemma {:induction false} RosterIs(cfg: Config, st: State, p: Packet, g: Garbage)
    requires WellFormed(st) && Admissible(cfg, st, ReadApplication(p))
    ensures var a, out, players := ReadApplication(p), SignOn(cfg, st, p, g).out, InOrder(st.clients, st.order);
            var ks := Mates(players, a.levelPath, |st.order|);
            && |out| == 1 + |ks| && out[0] == WelcomeMessage(cfg, Admitted(cfg, a, g))
            && forall i :: 0 <= i < |ks| ==> out[1 + i] == SpawnMessage(players[ks[i]], players[ks[i]].username)
  {
    hide SignOn, ReadApplication, Refusal, Admissible, Sorted, Entered, SpawnMessage, Admitted, WelcomeMessage, Mates,
      Introduced, Peers, SpawnMessages, Registered, NamesAt, InOrder;
    var a := ReadApplication(p);
    var c := Admitted(cfg, a, g);
    RefusalIff(cfg, st, a);
    AdmittedName(cfg, a, g);
    AdmittedPath(cfg, a, g);
    SignOnAdmits(cfg, st, p, g);
    AdmissibleUntaken(cfg, st, a);
    Taken(st, a.username);
    PeersOfNewcomer(st, c);
    SpawnsOfMates(st, c);
  }

  lemma SpawnsOfMates(st: State, c: Session)
    requires WellFormed(st) && c.username !in st.clients
    ensures var players := InOrder(st.clients, st.order);
            var ks := Mates(players, c.levelPath, |st.order|);
            var names := NamesAt(st.order, ks);
            && (forall n :: n in names ==> n in Registered(st, c).clients)
            && var spawns := SpawnMessages(Registered(st, c).clients, names);
               |spawns| == |ks| &&
               forall i :: 0 <= i < |ks| ==> spawns[i] == SpawnMessage(players[ks[i]], players[ks[i]].username)
  {
    hide Sorted, Entered, SpawnMessage, Mates, InsertKey;
    var players := InOrder(st.clients, st.order);
    var ks := Mates(players, c.levelPath, |st.order|);
    forall i | 0 <= i < |ks|
      ensures st.order[ks[i]] in st.clients && players[ks[i]].username == st.order[ks[i]]
    {
      NamedByEntry(st.clients[st.order[ks[i]]], st.order[ks[i]]);
    }
  }

  lemma AdmissibleUntaken(cfg: Config, st: State, a: Application)
    requires Admissible(cfg, st, a)
    ensures Untaken(st, a.username)
  {
    hide Untaken;
  }
}
