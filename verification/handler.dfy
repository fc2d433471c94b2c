/** The request handler object (src/request_handler.cpp): the cursor over the receive buffer and the
    handlers that change players and registry in place, each against its step in module Server. */
module Handler {
  import opened Wire
  import opened History
  import opened Replies
  import opened Clients
  import opened Server
  import opened Registry
  import opened Manager
  import opened Replication
  import Admission
  import Farewells
  import Health
  import Queries
  import SelfUpdate
  import Census

  class RequestHandler {
    const manager: ClientManager
    const config: Config
    var data: Packet
    var dataIndex: nat

    constructor (manager: ClientManager, config: Config, data: Packet)
      ensures this.manager == manager && this.config == config && this.data == data && dataIndex == 1
    {
      this.manager, this.config, this.data, dataIndex := manager, config, data, 1;
    }

    /** The registry is valid and every player is stored under its username. */
    ghost predicate Indexed()
      reads manager, manager.clients.Values
    {
      manager.Valid() && forall n :: n in manager.clients ==> manager.clients[n].username == n
    }

    /** This very object is registered. */
    ghost predicate Serves(c: Client)
      reads manager, c, manager.clients.Values
    {
      Indexed() && c.username in manager.clients && manager.clients[c.username] == c
    }

    // -------------------------------------------------------------- the cursor

    method GetString() returns (output: Bytes)
      modifies this`dataIndex
      ensures output == ReadString(data, old(dataIndex))
      ensures dataIndex == AfterString(data, old(dataIndex))
    {
      var size := data.At(dataIndex);
      dataIndex := dataIndex + 1;
      output := [];
      var i := 0;
      while i < size
        invariant 0 <= i <= StringSize(data, old(dataIndex))
        invariant dataIndex == old(dataIndex) + 1 + i
        invariant output == ReadString(data, old(dataIndex))[..i]
      {
        output := output + [data.At(dataIndex)];
        i, dataIndex := i + 1, dataIndex + 1;
      }
    }

    method GetFloat() returns (f: Single)
      modifies this`dataIndex
      ensures f == ReadSingle(data, old(dataIndex)) && dataIndex == old(dataIndex) + 4
    {
      var b := [data.At(dataIndex + 3), data.At(dataIndex + 2), data.At(dataIndex + 1), data.At(dataIndex)];
      f := Single(b[0], b[1], b[2], b[3]);
      dataIndex := dataIndex + 4;
    }

    method GetBool() returns (value: bool)
      modifies this`dataIndex
      ensures value == (data.At(old(dataIndex)) == 1) && dataIndex == old(dataIndex) + 1
    {
      value := false;
      if data.At(dataIndex) == 1 {
        value := true;
      }
      dataIndex := dataIndex + 1;
    }

    method GetInt() returns (value: Byte)
      modifies this`dataIndex
      ensures value == data.At(old(dataIndex)) && dataIndex == old(dataIndex) + 1
    {
      value := data.At(dataIndex);
      dataIndex := dataIndex + 1;
    }

    /** The getter a tag selects. */
    method GetValue(k: Kind) returns (v: Value)
      requires k != Bare
      modifies this`dataIndex
      ensures v == ReadValue(data, old(dataIndex), k) && dataIndex == old(dataIndex) + Width(k)
    {
      match k {
        case Flag =>
          var b := GetBool();
          v := BoolValue(b);
        case Small =>
          var n := GetInt();
          v := IntValue(n);
        case Float =>
          var f := GetFloat();
          v := FloatValue(f);
      }
    }

    // -------------------------------------------------------------- HandleSignOn, part by part

    /** Five strings, of which the version is ignored, and the spawn position. */
    method GetApplication() returns (a: Application)
      requires dataIndex == 1
      modifies this`dataIndex
      ensures a == ReadApplication(data)
    {
      hide ReadString, StringSize, ReadSingle;
      var username := GetString();
      var character := GetString();
      var levelName := GetString();
      var levelPath := GetString();
      var version := GetString();
      var posx := GetFloat();
      var posy := GetFloat();
      var posz := GetFloat();
      a := Application(username, character, levelName, levelPath, posx, posy, posz);
    }

    method FindLevelName(levelPath: Bytes, given: Bytes) returns (name: Bytes)
      ensures name == LevelName(config.maps, levelPath, given)
    {
      hide CStr;
      name := given;
      for i := 0 to |config.maps|
        invariant name == given
        invariant LevelName(config.maps[i..], levelPath, given) == LevelName(config.maps, levelPath, given)
      {
        assert config.maps[i..][0] == config.maps[i] && config.maps[i..][1..] == config.maps[i + 1..];
        if levelPath == CStr(config.maps[i].1) {
          name := CStr(config.maps[i].0);
          break;
        }
      }
    }

    method IsAllowed(levelPath: Bytes) returns (allowed: bool)
      ensures allowed <==> exists i :: 0 <= i < |config.maps| && config.maps[i].1 == levelPath
    {
      allowed := false;
      for i := 0 to |config.maps|
        invariant !allowed && forall j :: 0 <= j < i ==> config.maps[j].1 != levelPath
      {
        if levelPath == config.maps[i].1 {
          allowed := true;
          break;
        }
      }
    }

    method IsTaken(username: Bytes) returns (taken: bool)
      requires manager.Valid()
      ensures taken <==> exists n :: n in manager.View() && manager.View()[n].username == username
    {
      hide Less, Sorted;
      taken := false;
      var all := manager.GetClients(null);
      for i := 0 to |all|
        invariant !taken && forall j :: 0 <= j < i ==> manager.clients[all[j]].username != username
      {
        if manager.clients[all[i]].username == username {
          taken := true;
          assert manager.View()[all[i]].username == username;
          break;
        }
      }
    }

    method BuildError(content: Bytes) returns (message: Bytes)
      ensures message == ErrorMessage(content)
    {
      var reply := new Reply();
      reply.AddChar(ERROR);
      reply.AddString(content);
      message := reply.buffer;
    }

    /** The checks, in the order in which they are made. */
    method Check(a: Application) returns (refusal: Option<Bytes>)
      requires manager.Valid()
      ensures refusal == Refusal(config, manager.Snapshot(), a)
      ensures refusal.None? <==> Admission.Admissible(config, manager.Snapshot(), a)
      ensures refusal.Some? ==> Admission.Rejects(refusal.value, Admission.Complaint(config, a))
    {
      hide ClientManager.Valid, ClientManager.View, Refusal, Admission.Admissible, Admission.Rejects,
        Admission.Complaint;
      refusal := FirstRefusal(a);
      Admission.RefusalIff(config, manager.Snapshot(), a);
    }

    method FirstRefusal(a: Application) returns (refusal: Option<Bytes>)
      requires manager.Valid()
      ensures refusal == Refusal(config, manager.Snapshot(), a)
    {
      hide ErrorMessage, Less, Sorted, Text;
      if |a.levelName| < 2 || |a.levelPath| < 2 {
        var message := BuildError(Text("The level you are trying to use is not valid!"));
        return Some(message);
      }
      if !config.allowOtherMaps {
        var allowed := IsAllowed(a.levelPath);
        if !allowed {
          var message := BuildError(Text("This level is not allowed on this server!"));
          return Some(message);
        }
      }
      var taken := IsTaken(a.username);
      if taken {
        var message := BuildError(Text("Already a user with that username!"));
        return Some(message);
      }
      return None;
    }

    method FillIn(c: Client, a: Application, ghost g: Garbage)
      requires c.State() == NewSession(g)
      modifies c
      ensures c.State() == Admitted(config, a, g)
    {
      hide LevelName, NewSession, Set, Client.State;
      SetNames(c, a);
      Place(c, a);
      Finish(c, a);
    }

    method SetNames(c: Client, a: Application)
      modifies c
      ensures c.State() == old(c.State()).(levelName := LevelName(config.maps, a.levelPath, a.levelName),
                                           levelPath := a.levelPath, username := a.username, team := a.username)
    {
      hide LevelName;
      c.levelName := FindLevelName(a.levelPath, a.levelName);
      c.levelPath := a.levelPath;
      c.username := a.username;
      c.team := a.username;
    }

    /** The teleport position starts at the spawn position. */
    method Finish(c: Client, a: Application)
      modifies c
      ensures c.State() == old(c.State()).(character := a.character, signedOn := true,
                             saved := Spot(FloatValue(a.posx), FloatValue(a.posy), FloatValue(a.posz)))
    {
      c.saved := Spot(FloatValue(a.posx), FloatValue(a.posy), FloatValue(a.posz));
      c.character := a.character;
      c.signedOn := true;
    }

    method Place(c: Client, a: Application)
      modifies c
      ensures c.State() == Set(Set(Set(old(c.State()), POSITION_X, FloatValue(a.posx)),
                                   POSITION_Y, FloatValue(a.posy)), POSITION_Z, FloatValue(a.posz))
    {
      hide Set, Client.State;
      c.SetVariable(POSITION_X, FloatValue(a.posx));
      c.SetVariable(POSITION_Y, FloatValue(a.posy));
      c.SetVariable(POSITION_Z, FloatValue(a.posz));
    }

    method BuildWelcome(c: Client) returns (message: Bytes)
      ensures message == WelcomeMessage(config, c.State())
    {
      hide EncodeString, EmitValue;
      var reply := new Reply();
      reply.AddChar(SIGN_ON);
      assert reply.buffer == [SIGN_ON];
      reply.AddFloat(config.refreshRate);
      reply.AddString(c.username);
      reply.AddString(config.welcome);
      reply.AddString(c.team);
      reply.AddString(c.character);
      reply.AddString(c.levelName);
      message := reply.buffer;
    }

    method BuildSpawn(c: Client, second: Bytes) returns (message: Bytes)
      ensures message == SpawnMessage(c.State(), second)
    {
      hide EncodeString, EmitValue;
      var reply := new Reply();
      reply.AddChar(SPAWN_CHARACTER);
      assert reply.buffer == [SPAWN_CHARACTER];
      reply.AddString(c.username);
      reply.AddString(second);
      reply.AddString(c.character);
      reply.AddValue(c.vars[POSITION_X]);
      reply.AddValue(c.vars[POSITION_Y]);
      reply.AddValue(c.vars[POSITION_Z]);
      message := reply.buffer;
    }

    /** The usernames by which the players are stored, seen on the values. */
    lemma ViewNames()
      requires Indexed()
      ensures forall n :: n in manager.clients ==> manager.View()[n].username == n
    {
      hide Client.State;
      forall n | n in manager.clients
        ensures manager.View()[n].username == n
      {
        Fields(manager.clients[n]);
      }
    }

    /** The players already on the level, for the newcomer. */
    method BuildRoster(c: Client) returns (rep: seq<Bytes>)
      requires Serves(c)
      ensures var clients := manager.View();
              rep == SpawnMessages(clients, Peers(clients, manager.order, c.username))
    {
      hide SpawnMessage, Peers, PeersOf, Client.State, ClientManager.Valid, SameLevel;
      Fields(c);
      manager.Covered();
      ghost var clients := manager.View();
      ViewNames();
      PeersOfRegistered(clients, manager.order, c.username);
      var names := manager.GetClients(c);
      rep := [];
      for i := 0 to |names|
        invariant rep == SpawnMessages(clients, names)[..i]
      {
        var peer := manager.clients[names[i]];
        Fields(peer);
        var message := BuildSpawn(peer, peer.username);
        rep := rep + [message];
      }
    }

    /** The newcomer, to its level: a notice, then the character. */
    method Introduce(c: Client)
      requires Serves(c)
      modifies manager.clients.Values
      ensures Serves(c) && c.State() == old(c.State())
      ensures manager.clients == old(manager.clients) && manager.order == old(manager.order)
      ensures old(c.username) in old(manager.View())
      ensures manager.View() == Introduced(old(manager.View()), old(c.State()))
    {
      hide SpawnMessage, NoticeMessage, Less, Sorted, Broadcast;
      Fields(c);
      var entered := Notice(c.username + Text(" has entered the room."));
      var spawn := BuildSpawn(c, c.team);
      assert manager.View() == old(manager.View());
      ShareWithLevel(c, entered);
      ShareWithLevel(c, spawn);
    }

    /** HandleSignOn is the step Server.SignOn for a connection without a client; otherwise it does nothing.
        The new client is registered, or it is as the constructor left it. */
    method HandleSignOn(thisClient: Client?, g: Garbage) returns (client: Client, rep: seq<Bytes>)
      requires Indexed() && dataIndex == 1
      modifies this`dataIndex, manager, manager.clients.Values
      ensures Indexed() && OrderCovered(old(manager.Snapshot()))
      ensures thisClient != null ==>
                client == thisClient && rep == [] && manager.clients == old(manager.clients) &&
                manager.Snapshot() == old(manager.Snapshot())
      ensures thisClient == null ==>
                fresh(client) && manager.Snapshot() == SignOn(config, old(manager.Snapshot()), data, g).st &&
                rep == SignOn(config, old(manager.Snapshot()), data, g).out
      ensures thisClient == null ==>
                var a := ReadApplication(data);
                if Refusal(config, old(manager.Snapshot()), a).None? then
                  Serves(client) && client.State() == Admitted(config, a, g) &&
                  manager.clients == old(manager.clients)[a.username := client]
                else
                  client !in manager.clients.Values && client.State() == NewSession(g) &&
                  manager.clients == old(manager.clients)
      ensures thisClient == null ==>
                var a := ReadApplication(data);
                if Admission.Admissible(config, old(manager.Snapshot()), a) then Serves(client)
                else
                  client !in manager.clients.Values && |rep| == 1 &&
                  Admission.Rejects(rep[0], Admission.Complaint(config, a))
    {
      hide Refusal, Admitted, ReadApplication, Client.State, NewSession, SignOn, ClientManager.Valid,
        ClientManager.View, RequestHandler.Serves, Admission.Admissible, Admission.Rejects, Admission.Complaint;
      manager.Covered();
      if thisClient != null {
        return thisClient, [];
      }
      ghost var st := manager.Snapshot();
      client, rep := SignOnNewcomer(g);
      Admission.SignOnAnswer(config, st, data, g);
    }

    method SignOnNewcomer(g: Garbage) returns (client: Client, rep: seq<Bytes>)
      requires Indexed() && dataIndex == 1
      modifies this`dataIndex, manager, manager.clients.Values
      ensures Indexed() && OrderCovered(old(manager.Snapshot()))
      ensures fresh(client) && manager.Snapshot() == SignOn(config, old(manager.Snapshot()), data, g).st
      ensures rep == SignOn(config, old(manager.Snapshot()), data, g).out
      ensures var a := ReadApplication(data);
              if Refusal(config, old(manager.Snapshot()), a).None? then
                Serves(client) && client.State() == Admitted(config, a, g) &&
                manager.clients == old(manager.clients)[a.username := client]
              else
                client !in manager.clients.Values && client.State() == NewSession(g) &&
                manager.clients == old(manager.clients)
    {
      hide Refusal, Admitted, WelcomeMessage, ReadApplication, SpawnMessages, Introduced, Peers, Less, Sorted,
        InsertKey, Client.State, NewSession, SignOn, Admission.Admissible, Admission.Rejects, Admission.Complaint;
      client := new Client(g);
      var a := GetApplication();
      var refusal := Check(a);
      assert manager.View() == old(manager.View());
      if refusal.Some? {
        Admission.RefusedWith(config, manager.Snapshot(), data, g);
        rep := [refusal.value];
        return;
      }
      SignOnAdmits(config, manager.Snapshot(), data, g);
      ViewNames();
      NotTaken(config, manager.Snapshot(), a);
      rep := Accept(client, a, g);
    }

    /** Fills in a new client and registers it. */
    method Accept(c: Client, a: Application, g: Garbage) returns (rep: seq<Bytes>)
      requires Indexed() && c !in manager.clients.Values && c.State() == NewSession(g) && a.username !in manager.clients
      modifies manager, manager.clients.Values, c
      ensures Serves(c) && c.State() == Admitted(config, a, g)
      ensures manager.clients == old(manager.clients)[a.username := c]
      ensures var st := Registered(old(manager.Snapshot()), Admitted(config, a, g));
              && OrderCovered(st) && Admitted(config, a, g).username == a.username && a.username in st.clients
              && manager.Snapshot() == State(Introduced(st.clients, Admitted(config, a, g)), st.order)
              && rep == [WelcomeMessage(config, Admitted(config, a, g))] +
                        SpawnMessages(st.clients, Peers(st.clients, st.order, a.username))
    {
      hide Admitted, WelcomeMessage, SpawnMessages, Introduced, Peers, ClientManager.Valid, InsertKey, Client.State,
        NewSession;
      FillIn(c, a, g);
      AdmittedName(config, a, g);
      Fields(c);
      assert manager.View() == old(manager.View());
      rep := Admit(c);
    }

    /** Registers a filled-in client and tells everybody. */
    method Admit(c: Client) returns (rep: seq<Bytes>)
      requires Indexed() && c !in manager.clients.Values && c.username !in manager.clients
      modifies manager, manager.clients.Values, c
      ensures Serves(c) && c.State() == old(c.State()) && manager.clients == old(manager.clients)[old(c.username) := c]
      ensures var st := Registered(old(manager.Snapshot()), old(c.State()));
              && OrderCovered(st) && old(c.username) in st.clients
              && manager.Snapshot() == State(Introduced(st.clients, old(c.State())), st.order)
              && rep == [WelcomeMessage(config, old(c.State()))] +
                        SpawnMessages(st.clients, Peers(st.clients, st.order, old(c.username)))
    {
      hide WelcomeMessage, SpawnMessages, Introduced, Peers, ClientManager.Valid, InsertKey, Client.State;
      Fields(c);
      manager.Covered();
      manager.AddClient(c);
      InsertKeyMembers(old(manager.order), c.username);
      var welcome := BuildWelcome(c);
      var roster := BuildRoster(c);
      rep := [welcome] + roster;
      Introduce(c);
    }

    // -------------------------------------------------------------- HandleUpdate, part by part

    /** The body of the decode loop: the tag, and if it is known, its payload into its variable. */
    method DecodeRecord(c: Client) returns (variableType: Byte)
      modifies c, this`dataIndex
      ensures var r := ReadRecord(PeerGrammar, data, old(dataIndex));
              && variableType == r.tag
              && dataIndex == NextIndex(PeerGrammar, data, old(dataIndex))
              && c.State() == if r.value.Some? then Set(old(c.State()), r.tag, r.value.value) else old(c.State())
    {
      hide Client.State, Set;
      variableType := data.At(dataIndex);
      dataIndex := dataIndex + 1;
      var k := ReadKind(variableType);
      TablesAgree(variableType);
      if k != Bare {
        var v := GetValue(k);
        c.SetVariable(variableType, v);
      }
    }

    /** The decode loop. It reads whole records while the cursor is inside the packet, so the last one
        may take its payload from beyond it. */
    method DecodeUpdate(c: Client)
      requires dataIndex == 1
      modifies c, this`dataIndex
      ensures c.State() == Decoded(old(c.State()), data) && c.username == old(c.username)
      ensures dataIndex == ExitIndex(PeerGrammar, data, 1)
    {
      hide Client.State, ReadRecord, NextIndex, StoredAll, Set, AddedHistory;
      Fields(c);
      c.SetAllVariablesOld();
      ghost var start := c.State();
      var newHistory: seq<Byte> := [];
      ghost var rs: seq<Record> := [];
      NothingStored(start);
      while dataIndex < |data.bytes|
        invariant rs + Records(PeerGrammar, data, dataIndex) == Records(PeerGrammar, data, 1)
        invariant ExitIndex(PeerGrammar, data, dataIndex) == ExitIndex(PeerGrammar, data, 1)
        invariant newHistory == Tags(rs)
        invariant c.State() == StoredAll(start, rs)
        decreases |data.bytes| - dataIndex
      {
        ghost var r := ReadRecord(PeerGrammar, data, dataIndex);
        ghost var rest := Records(PeerGrammar, data, NextIndex(PeerGrammar, data, dataIndex));
        assert rs + ([r] + rest) == (rs + [r]) + rest;
        var variableType := DecodeRecord(c);
        newHistory := newHistory + [variableType];
        StoredAllAppend(start, rs, r);
        rs := rs + [r];
      }
      assert rs == Records(PeerGrammar, data, 1);
      if |newHistory| > 0 {
        c.AddHistory(newHistory);
      }
      DecodedIdentity(old(c.State()), data);
      Fields(c);
    }

    /** Pops the inbox until it is empty: newest message first. */
    method DrainInbox(c: Client) returns (rep: seq<Bytes>)
      modifies c
      ensures rep == Reverse(old(c.inbox))
      ensures c.State() == old(c.State()).(inbox := []) && c.username == old(c.username)
    {
      hide Reverse;
      rep := [];
      while c.inbox != []
        invariant c.State() == old(c.State()).(inbox := c.inbox)
        invariant rep + Reverse(c.inbox) == Reverse(old(c.inbox))
        decreases |c.inbox|
      {
        ReverseStep(rep, c.inbox);
        var message := c.GetInboxMessage();
        rep := rep + [message];
      }
      ReverseEmpty();
    }

    /** One of the tests of AddChangedVariables. */
    method AddIfChanged(reply: Reply, c: Client, t: Byte)
      requires t in SELF_ORDER
      modifies reply
      ensures reply.buffer ==
              old(reply.buffer) + if t in c.changed then EmitRecord(RecordOf(SelfGrammar, c.vars, t)) else []
    {
      SelfUpdate.SelfOrderCovers(t);
      hide SELF_ORDER, EmitValue;
      if t in c.changed {
        reply.AddChar(t);
        reply.AddValue(c.vars[t]);
      }
    }

    method AddChangedVariables(reply: Reply, c: Client)
      modifies reply
      ensures reply.buffer ==
              old(reply.buffer) + Encode(RecordsFor(SelfGrammar, c.vars, Select(SELF_ORDER, c.changed)))
    {
      hide SELF_ORDER, Encode, RecordsFor, RecordOf, EmitRecord;
      ghost var done: seq<Byte> := [];
      NothingEncoded(SelfGrammar, c.vars);
      for i := 0 to |SELF_ORDER|
        invariant done == Select(SELF_ORDER[..i], c.changed)
        invariant reply.buffer == old(reply.buffer) + Encode(RecordsFor(SelfGrammar, c.vars, done))
      {
        var t := SELF_ORDER[i];
        SelectStep(i, c.changed);
        AddIfChanged(reply, c, t);
        EncodeStep(SelfGrammar, c.vars, done, t);
        if t in c.changed {
          done := done + [t];
        }
      }
      assert SELF_ORDER[..|SELF_ORDER|] == SELF_ORDER;
    }

    /** Revive: ten setters, the self update, and the flag that was only for it taken back. */
    method Revive(c: Client) returns (message: Bytes)
      modifies c
      ensures var healed := StoredAll(old(c.State()), REVIVE);
              c.State() == Set(healed, REMOVE_BLOOD, BoolValue(false)) && message == SelfMessage(healed)
    {
      hide Client.State, StoredAll, Set, SelfMessage, REVIVE;
      ghost var start := c.State();
      c.SetVariable(BLOOD_HEALTH, ONE);
      c.SetVariable(PERMANENT_HEALTH, ONE);
      c.SetVariable(BLOOD_DAMAGE, ZERO);
      c.SetVariable(BLOCK_HEALTH, ONE);
      c.SetVariable(TEMP_HEALTH, ONE);
      c.SetVariable(KNOCKED_OUT, AWAKE);
      c.SetVariable(BLOOD_AMOUNT, TEN);
      c.SetVariable(RECOVERY_TIME, ZERO);
      c.SetVariable(ROLL_RECOVERY_TIME, ZERO);
      c.SetVariable(REMOVE_BLOOD, BoolValue(true));
      c.SetVariable(CUT_THROAT, BoolValue(false));
      SettersA(start);
      SettersB(start);
      SettersC(start);
      SettersD(start);
      SettersE(start);
      message := BuildSelfMessage(c);
      c.SetVariable(REMOVE_BLOOD, BoolValue(false));
    }

    method BuildSelfMessage(c: Client) returns (message: Bytes)
      ensures message == SelfMessage(c.State())
    {
      hide Encode, RecordsFor, Select;
      var reply := new Reply();
      reply.AddChar(UPDATE_SELF);
      AddChangedVariables(reply, c);
      message := reply.buffer;
    }

    method Notice(content: Bytes) returns (message: Bytes)
      ensures message == NoticeMessage(content)
    {
      hide EncodeString, EmitValue;
      var reply := new Reply();
      reply.AddChar(MESSAGE);
      reply.AddString(Text("server"));
      reply.AddString(content);
      reply.AddBool(true);
      message := reply.buffer;
    }

    /** Tells the level, then the player itself. */
    method AnnounceDeath(c: Client, now: int)
      requires Indexed()
      modifies manager.clients.Values, c
      ensures Indexed() && c.username == old(c.username)
      ensures manager.clients == old(manager.clients) && manager.order == old(manager.order)
      ensures c.State() ==
              Received(old(c.State()).(deathChanged := true, timeOfDeath := now), DiedNotice(old(c.State())))
      ensures forall n :: n in manager.clients && manager.clients[n] != c ==>
                (manager.clients[n].State() ==
                 if SameLevel(old(manager.clients[n].State()), old(c.State())) then
                   Received(old(manager.clients[n].State()), DiedNotice(old(c.State())))
                 else old(manager.clients[n].State()))
    {
      hide NoticeMessage, ClientManager.Valid;
      c.deathChanged := true;
      c.timeOfDeath := now;
      var died := Notice(c.username + Text(" has died."));
      manager.AddToInbox(died, c);
      c.AddToInbox(died);
    }

    /** Announces a death once, revives after the delay, and lowers the flag of the living, for any
        client, registered or not. */
    method JudgeDeath(c: Client, now: int) returns (rep: seq<Bytes>)
      requires Indexed()
      modifies manager.clients.Values, c
      ensures Indexed() && c.username == old(c.username)
      ensures manager.clients == old(manager.clients) && manager.order == old(manager.order)
      ensures c.State() == Aftermath(old(c.State()), now).0 && rep == Aftermath(old(c.State()), now).1
      ensures c.deathChanged == !Health.Standing(old(c.vars))
      ensures rep != [] <==> !Health.Standing(old(c.vars)) && old(c.deathChanged) && now - old(c.timeOfDeath) > 5
      ensures forall n :: n in manager.clients && manager.clients[n] != c ==>
                (manager.clients[n].State() ==
                 if FateOf(old(c.State()), now) == Announced &&
                    SameLevel(old(manager.clients[n].State()), old(c.State())) then
                   Received(old(manager.clients[n].State()), DiedNotice(old(c.State())))
                 else old(manager.clients[n].State()))
    {
      hide NoticeMessage, NonPositive, SelfMessage, StoreAll, Assigned, SameLevel, DiedNotice, Health.Standing;
      Health.StandingIff(c.vars);
      rep := [];
      if NonPositive(c.vars[PERMANENT_HEALTH]) || NonPositive(c.vars[BLOOD_HEALTH]) ||
         NonPositive(c.vars[TEMP_HEALTH]) || c.vars[KNOCKED_OUT] != AWAKE {
        if !c.deathChanged {
          AnnounceDeath(c, now);
        } else if now - c.timeOfDeath > REVIVE_DELAY {
          var message := Revive(c);
          rep := [message];
        }
      } else {
        c.deathChanged := false;
      }
    }

    /** Writes the missing variables of a peer behind the header: a bare tag for what it cannot value. */
    method AddOtherClientVariables(reply: Reply, peer: Client, lastUpdateKey: int)
      modifies reply
      ensures reply.buffer ==
              old(reply.buffer) + Encode(RecordsFor(PeerGrammar, peer.vars, Missing(peer.history, lastUpdateKey)))
    {
      hide Missing, Encode, RecordsFor, RecordOf, EmitRecord;
      var types := peer.GetMissingUpdateVariableTypes(lastUpdateKey);
      NothingEncoded(PeerGrammar, peer.vars);
      for i := 0 to |types|
        invariant reply.buffer == old(reply.buffer) + Encode(RecordsFor(PeerGrammar, peer.vars, types[..i]))
      {
        AddTyped(reply, peer, types[i]);
        EncodeStep(PeerGrammar, peer.vars, types[..i], types[i]);
        assert types[..i + 1] == types[..i] + [types[i]];
      }
      assert types[..|types|] == types;
    }

    method AddTyped(reply: Reply, peer: Client, t: Byte)
      modifies reply
      ensures reply.buffer == old(reply.buffer) + EmitRecord(RecordOf(PeerGrammar, peer.vars, t))
    {
      hide EmitValue;
      reply.AddInt(t);
      TablesAgree(t);
      if WrittenKind(t) != Bare {
        reply.AddValue(peer.vars[t]);
      }
    }

    /** One round of the peer loop. The message is dropped if it is no longer than its header. */
    method SyncPeer(c: Client, peer: Client) returns (rep: seq<Bytes>)
      requires peer != c
      modifies c
      ensures var (keys, out) := SyncOne(old(c.keys), old(peer.State()));
              c.State() == old(c.State()).(keys := keys) && c.keys == keys && c.username == old(c.username) &&
                rep == out
    {
      hide Missing, Encode, RecordsFor, EncodeString;
      rep := [];
      var reply := new Reply();
      reply.AddChar(UPDATE_CHARACTER);
      reply.AddString(peer.username);
      assert reply.buffer == [UPDATE_CHARACTER] + EncodeString(peer.username);
      var emptySize := reply.GetBufferSize();
      var lastUpdateKey := c.GetKey(peer.username);
      var newest := peer.GetLastUpdateKey();
      if lastUpdateKey == -1 {
        if newest != -1 {
          c.SetKey(peer.username, newest);
        }
      } else {
        AddOtherClientVariables(reply, peer, lastUpdateKey);
        EmptyEncoding(peer.vars, Missing(peer.history, lastUpdateKey));
      }
      var size := reply.GetBufferSize();
      if size != emptySize {
        c.SetKey(peer.username, newest);
        rep := [reply.buffer];
      }
    }

    /** The peers of a client are other registered objects. */
    lemma PeersAreOthers(c: Client)
      requires Indexed()
      ensures forall n :: n in manager.order ==> n in manager.View()
      ensures forall n :: n in PeersOf(manager.View(), manager.order, c.State()) ==>
                n in manager.clients && n != c.username && manager.clients[n] != c
    {
      hide Less, Sorted, Client.State, PeersOf, SameLevel;
      Fields(c);
      ViewNames();
    }

    /** The peer loop of any client, registered or not. */
    method SyncPeers(c: Client) returns (rep: seq<Bytes>)
      requires Indexed()
      modifies c
      ensures Indexed() && c.username == old(c.username)
      ensures var clients := old(manager.View());
              var (keys, out) := Sync(clients, PeersOf(clients, manager.order, old(c.State())), old(c.keys));
              c.State() == old(c.State()).(keys := keys) && c.keys == keys && rep == out
    {
      hide SyncOne, Sync, PeersOf, Client.State, ClientManager.Valid, SameLevel;
      rep := [];
      Fields(c);
      ghost var clients := manager.View();
      PeersAreOthers(c);
      var names := manager.GetClients(c);
      SyncNobody(clients, c.keys);
      for i := 0 to |names|
        invariant Indexed() && c.username == old(c.username)
        invariant forall n :: n in names ==> n in manager.clients && manager.clients[n] != c
        invariant forall n :: n in names ==> n in clients && manager.clients[n].State() == clients[n]
        invariant c.State() == old(c.State()).(keys := c.keys)
        invariant Sync(clients, names[..i], old(c.keys)) == (c.keys, rep)
      {
        SyncStep(clients, names, i, old(c.keys));
        var more := SyncPeer(c, manager.clients[names[i]]);
        rep := rep + more;
      }
      assert names[..|names|] == names;
    }

    /** The same, as it changes the registry. */
    method SyncRegistry(c: Client) returns (rep: seq<Bytes>)
      requires Indexed()
      modifies c
      ensures Indexed() && c.username == old(c.username)
      ensures var clients := old(manager.View());
              var (keys, out) := Sync(clients, PeersOf(clients, manager.order, old(c.State())), old(c.keys));
              c.State() == old(c.State()).(keys := keys) && c.keys == keys && rep == out
      ensures old(Serves(c)) ==>
                var clients := old(manager.View());
                && Serves(c) && c.username in clients
                && manager.View() == clients[c.username := clients[c.username].(keys := c.keys)]
      ensures !old(Serves(c)) ==> manager.View() == old(manager.View())
    {
      hide Sync, PeersOf, Client.State, ClientManager.Valid;
      ghost var registered, clients := Serves(c), manager.View();
      rep := SyncPeers(c);
      if registered {
        assert manager.View() == clients[c.username := clients[c.username].(keys := c.keys)];
      } else {
        assert manager.View() == clients;
      }
    }

    /** The first three parts: decode, drain, judge. */
    method Refresh(c: Client, now: int) returns (rep: seq<Bytes>)
      requires Indexed() && dataIndex == 1
      modifies this`dataIndex, manager.clients.Values, c
      ensures Indexed() && c.username == old(c.username)
      ensures manager.clients == old(manager.clients) && manager.order == old(manager.order)
      ensures c.State() == Refreshed(old(c.State()), data, now).0 && rep == Refreshed(old(c.State()), data, now).1
      ensures forall n :: n in manager.clients && manager.clients[n] != c ==>
                (manager.clients[n].State() ==
                 if FateAt(old(c.State()), data, now) == Announced &&
                    SameLevel(old(manager.clients[n].State()), old(c.State()))
                 then Received(old(manager.clients[n].State()), DiedNotice(old(c.State())))
                 else old(manager.clients[n].State()))
    {
      hide Decoded, Aftermath, Less, Sorted, Reverse, FateOf, NoticeMessage, Client.State;
      ghost var before := c.State();
      DecodedIdentity(before, data);
      FateIgnoresInbox(Decoded(before, data), now);
      DecodeUpdate(c);
      Fields(c);
      var drained := DrainInbox(c);
      var judged := JudgeDeath(c, now);
      rep := drained + judged;
    }

    /** The same, as it changes the registry. */
    method Settle(c: Client, now: int) returns (rep: seq<Bytes>)
      requires Indexed() && dataIndex == 1
      modifies this`dataIndex, manager.clients.Values, c
      ensures Indexed() && c.username == old(c.username)
      ensures manager.clients == old(manager.clients) && manager.order == old(manager.order)
      ensures c.State() == Refreshed(old(c.State()), data, now).0 && rep == Refreshed(old(c.State()), data, now).1
      ensures old(Serves(c)) ==> manager.View() == Settled(old(manager.View()), c.username, data, now)
      ensures !old(Serves(c)) ==> manager.View() == SettledOutside(old(manager.View()), old(c.State()), data, now)
    {
      hide Refreshed, Less, Sorted, Client.State, FateAt, SameLevel, DiedNotice, Settled;
      ghost var before, self, registered := manager.View(), c.State(), Serves(c);
      Fields(c);
      rep := Refresh(c, now);
      if registered {
        SettledSteps(before, manager.View(), c.username, data, now);
      } else {
        assert c !in manager.clients.Values;
        assert manager.View() == SettledOutside(before, self, data, now);
      }
    }

    /** HandleUpdate is the step Server.Update on the registry, with its replies, for a registered client,
        and Server.UpdateOutside for any other. */
    method HandleUpdate(c: Client, now: int) returns (rep: seq<Bytes>)
      requires Indexed() && dataIndex == 1
      modifies this`dataIndex, manager.clients.Values, c
      ensures Indexed() && manager.clients == old(manager.clients) && OrderCovered(old(manager.Snapshot()))
      ensures c.username == old(c.username)
      ensures old(Serves(c)) ==>
                Serves(c) && manager.Snapshot() == Update(old(manager.Snapshot()), old(c.username), data, now).st &&
                rep == Update(old(manager.Snapshot()), old(c.username), data, now).out
      ensures !old(Serves(c)) ==>
                Outside(manager.Snapshot(), c.State(), rep) ==
                UpdateOutside(old(manager.Snapshot()), old(c.State()), data, now)
    {
      hide Refreshed, Sync, Peers, PeersOf, Settled, Client.State, SettledOutside, ClientManager.Valid, SameLevel;
      ghost var registered := Serves(c);
      Fields(c);
      manager.Covered();
      var settledReplies := Settle(c, now);
      ghost var settled := manager.View();
      Fields(c);
      manager.Covered();
      if registered {
        ViewNames();
        PeersOfRegistered(settled, manager.order, c.username);
      }
      var synced := SyncRegistry(c);
      rep := settledReplies + synced;
    }

    /** A registered client is known to the values under its name. */
    lemma Known()
      requires Indexed()
      ensures forall n :: n in manager.clients <==> n in manager.Snapshot().clients
      ensures forall n :: n in manager.clients ==> Serves(manager.clients[n]) && manager.clients[n].username == n
    {
      hide Client.State;
    }

    // -------------------------------------------------------------- the other requests

    method HandleSavePosition(c: Client)
      modifies c
      ensures c.State() == Saved(config, old(c.State()), SAVE_POSITION) && c.username == old(c.username)
    {
      if !config.allowTeleport {
        return;
      }
      c.saved := Spot(c.vars[POSITION_X], c.vars[POSITION_Y], c.vars[POSITION_Z]);
    }

    method HandleLoadPosition(c: Client) returns (rep: seq<Bytes>)
      ensures rep == if config.allowTeleport then [LoadMessage(c.State())] else []
    {
      hide EmitValue;
      if !config.allowTeleport {
        return [];
      }
      var reply := new Reply();
      reply.AddChar(LOAD_POSITION);
      assert reply.buffer == [LOAD_POSITION];
      reply.AddValue(c.saved.x);
      reply.AddValue(c.saved.y);
      reply.AddValue(c.saved.z);
      rep := [reply.buffer];
    }

    method HandleServerInfo() returns (rep: seq<Bytes>)
      ensures rep == [InfoMessage(config, manager.Snapshot())]
    {
      hide EncodeString, Client.State;
      var reply := new Reply();
      reply.AddChar(SERVER_INFO);
      assert reply.buffer == [SERVER_INFO];
      reply.AddString(config.serverName);
      reply.AddInt(|manager.order|);
      rep := [reply.buffer];
    }

    method HandleLevelList() returns (rep: seq<Bytes>)
      requires manager.Valid()
      ensures OrderCovered(manager.Snapshot()) && rep == [LevelsMessage(config, manager.Snapshot())]
      ensures Queries.ListsLevels(rep[0], config, manager.Snapshot())
    {
      hide Queries.ListsLevels;
      hide Client.State, Less, Sorted, InOrder, Census.LevelList, Census.EncodeLevels, Census.IsCensus;
      var players := manager.Players();
      var reply := new Reply();
      reply.AddChar(LEVEL_LIST);
      assert reply.buffer == [LEVEL_LIST];
      ghost var levels := Census.GetLevelList(reply, config.maps, players);
      rep := [reply.buffer];
      Queries.LevelListReadsBack(config, manager.Snapshot());
    }

    method HandlePlayerList(c: Client?) returns (rep: seq<Bytes>)
      requires manager.Valid()
      ensures OrderCovered(manager.Snapshot())
      ensures rep == [PlayersMessage(manager.Snapshot(), if c == null then None else Some(c.State()))]
    {
      hide Client.State, Less, Sorted, InOrder, PlayerEntries;
      if c != null {
        Fields(c);
      }
      var reply := new Reply();
      reply.AddChar(PLAYER_LIST);
      assert reply.buffer == [PLAYER_LIST];
      manager.GetPlayerList(reply, c);
      rep := [reply.buffer];
    }

    method HandleUnknown() returns (rep: seq<Bytes>)
      ensures rep == [Text("Go away!")]
    {
      var reply := new Reply();
      reply.AddPlainText(Text("Go away!"));
      GoAwayPlain();
      hide Text, CStr;
      assert reply.buffer == Text("Go away!");
      rep := [reply.buffer];
    }

    /** The requests of which the original needs a client. */
    predicate NeedsClient(kind: Byte)
    {
      kind in {UPDATE_GAME, MESSAGE} || (kind in {SAVE_POSITION, LOAD_POSITION} && config.allowTeleport)
    }

    /** The remaining cases of the dispatch. */
    method Answer(c: Client?, kind: Byte) returns (rep: seq<Bytes>)
      requires Indexed() && kind !in {SIGN_ON, UPDATE_GAME, MESSAGE} && (NeedsClient(kind) ==> c != null)
      modifies if c == null then {} else {c}
      ensures Indexed() && OrderCovered(old(manager.Snapshot()))
      ensures rep == Answers(config, old(manager.Snapshot()), if c == null then None else Some(old(c.State())), kind)
      ensures c != null ==> c.State() == Saved(config, old(c.State()), kind) && c.username == old(c.username)
    {
      hide Client.State, Less, Sorted, ClientManager.Valid, LoadMessage, InfoMessage, LevelsMessage, PlayersMessage,
        Text;
      manager.Covered();
      if kind == SAVE_POSITION {
        if c != null {
          HandleSavePosition(c);
        }
        rep := [];
      } else if kind == LOAD_POSITION {
        rep := [];
        if c != null {
          rep := HandleLoadPosition(c);
        }
      } else if kind == SERVER_INFO {
        rep := HandleServerInfo();
      } else if kind == LEVEL_LIST {
        rep := HandleLevelList();
      } else if kind == PLAYER_LIST {
        rep := HandlePlayerList(c);
      } else if kind == UPDATE_SELF {
        rep := [];
      } else {
        rep := HandleUnknown();
      }
    }

    /** The same, as it changes the registry. */
    method HandleOther(c: Client?, kind: Byte) returns (rep: seq<Bytes>)
      requires Indexed() && kind !in {SIGN_ON, UPDATE_GAME, MESSAGE} && (NeedsClient(kind) ==> c != null)
      modifies if c == null then {} else {c}
      ensures Indexed() && OrderCovered(old(manager.Snapshot()))
      ensures rep == Answers(config, old(manager.Snapshot()), if c == null then None else Some(old(c.State())), kind)
      ensures c == null || !old(Serves(c)) ==> manager.Snapshot() == old(manager.Snapshot())
      ensures c != null ==> c.State() == Saved(config, old(c.State()), kind) && c.username == old(c.username)
      ensures c != null && old(Serves(c)) ==>
                Serves(c) && old(c.username) in old(manager.View()) &&
                manager.View() == old(manager.View())[c.username := Saved(config, old(manager.View())[c.username],
                  kind)]
    {
      hide Client.State, ClientManager.Valid, Answers, Saved;
      ghost var before := manager.View();
      ghost var registered := c != null && Serves(c);
      rep := Answer(c, kind);
      if registered {
        assert manager.View() == before[c.username := Saved(config, before[c.username], kind)];
      } else {
        assert manager.View() == before;
      }
    }

    // -------------------------------------------------------------- dispatch

    /** handle_request: by its first byte a packet is a step of a run, on a connection that has no client
        yet or that of a registered player. A request that needs a client and comes before sign-on is not
        handled in the original, which dereferences the missing client. */
    method HandleRequest(thisClient: Client?, packet: Packet, now: int, g: Garbage)
      returns (client: Client?, rep: seq<Bytes>)
      requires Indexed()
      requires NeedsClient(packet.At(0)) ==> thisClient != null
      modifies this, manager, manager.clients.Values, if thisClient == null then {} else {thisClient}
      ensures Indexed() && OrderCovered(old(manager.Snapshot()))
      ensures thisClient == null || old(Serves(thisClient)) ==>
                var who := if thisClient == null then None else Some(old(thisClient.username));
                match EventOf(who, packet, now, g)
                case None =>
                  manager.Snapshot() == old(manager.Snapshot()) &&
                  rep == Answers(config, old(manager.Snapshot()), None, packet.At(0))
                case Some(e) =>
                  var r := React(config, old(manager.Snapshot()), e); manager.Snapshot() == r.st && rep == r.out
      ensures thisClient != null ==>
                client == thisClient && manager.clients == old(manager.clients) &&
                client.username == old(thisClient.username) && (old(Serves(thisClient)) ==> Serves(thisClient))
      ensures thisClient != null && !old(Serves(thisClient)) ==>
                manager.Snapshot() == OutsideState(old(manager.Snapshot()), old(thisClient.State()), packet, now) &&
                Told(old(manager.Snapshot()), old(thisClient.State()), client.State(), rep, packet, now)
      ensures thisClient == null ==>
                var a := ReadApplication(packet);
                if packet.At(0) != SIGN_ON then client == null && manager.clients == old(manager.clients)
                else if Refusal(config, old(manager.Snapshot()), a).None? then
                  client != null && fresh(client) && Serves(client) && client.State() == Admitted(config, a, g) &&
                  manager.clients == old(manager.clients)[a.username := client]
                else
                  client != null && fresh(client) && client !in manager.clients.Values &&
                  client.State() == NewSession(g) && manager.clients == old(manager.clients)
    {
      hide Update, Chat, SignOn, Less, Sorted, Client.State, Refusal, ReadApplication, Admitted, NewSession,
        UpdateOutside, ChatOutside, Answers, Saved, React, EventOf, Admission.Admissible, Admission.Rejects,
        Admission.Complaint;
      data := packet;
      dataIndex := 1;
      client, rep := thisClient, [];
      assert manager.View() == old(manager.View());
      var requestType := data.At(0);
      manager.Covered();
      NoAnswers(config, manager.Snapshot());
      if thisClient == null {
        FirstByte(config, manager.Snapshot(), None, packet, now, g);
      } else if Serves(thisClient) {
        FirstByte(config, manager.Snapshot(), Some(thisClient.username), packet, now, g);
      }
      if requestType == SIGN_ON {
        client, rep := HandleSignOn(thisClient, g);
      } else if requestType == UPDATE_GAME {
        rep := HandleUpdate(thisClient, now);
      } else if requestType == MESSAGE {
        HandleChatMessage(thisClient);
      } else {
        rep := HandleOther(thisClient, requestType);
      }
    }

    /** What a request of a client that is not registered does to that client, and what it is answered. */
    ghost predicate Told(st: State, before: Session, after: Session, rep: seq<Bytes>, packet: Packet, now: int)
      requires OrderCovered(st)
    {
      if packet.At(0) == UPDATE_GAME then
        after == UpdateOutside(st, before, packet, now).c && rep == UpdateOutside(st, before, packet, now).out
      else if packet.At(0) == MESSAGE then after == ChatOutside(st, before, packet).c && rep == []
      else after == Saved(config, before, packet.At(0)) && rep == Answers(config, st, Some(before), packet.At(0))
    }

    // -------------------------------------------------------------- chat and disconnect

    /** An empty registry, seen on the objects. */
    lemma Nobody()
      requires manager.Snapshot() == EMPTY
      ensures manager.clients == map[] && manager.order == [] && Indexed()
    {
      hide Client.State;
      assert manager.View().Keys == manager.clients.Keys;
    }

    /** The claimed source of the message is read and ignored. */
    method ReadChat() returns (content: Bytes)
      requires dataIndex == 1
      modifies this`dataIndex
      ensures content == ReadString(data, AfterString(data, 1))
    {
      var source := GetString();
      content := GetString();
    }

    /** HandleChatMessage is the step Server.Chat for a registered client, and Server.ChatOutside for any other. */
    method HandleChatMessage(c: Client)
      requires Indexed() && dataIndex == 1
      modifies this`dataIndex, manager.clients.Values, c
      ensures Indexed() && manager.clients == old(manager.clients) && c.username == old(c.username)
      ensures old(Serves(c)) ==>
                Serves(c) && manager.Snapshot() == Chat(old(manager.Snapshot()), old(c.username), data)
      ensures !old(Serves(c)) ==>
                Outside(manager.Snapshot(), c.State(), []) == ChatOutside(old(manager.Snapshot()), old(c.State()), data)
    {
      hide ChatMessage, ReadString, AfterString, Broadcast, Overheard, Less, Sorted;
      hide Client.State;
      Fields(c);
      var content := ReadChat();
      var message := BuildChat(c.username, content);
      assert manager.View() == old(manager.View());
      Post(c, message);
    }

    /** A client is stored under its own name or not at all. */
    lemma OthersAre(c: Client)
      requires Indexed()
      ensures forall n :: n in manager.clients && !(n == c.username && Serves(c)) ==> manager.clients[n] != c
    {
      hide Less, Sorted;
    }

    /** To the level and back to the sender. */
    method Post(c: Client, message: Bytes)
      requires Indexed()
      modifies manager.clients.Values, c
      ensures Indexed() && c.username == old(c.username)
      ensures manager.clients == old(manager.clients) && manager.order == old(manager.order)
      ensures old(Serves(c)) ==>
                var shared := Broadcast(old(manager.View()), old(c.username), message);
                && Serves(c) && old(c.username) in shared
                && manager.View() == shared[old(c.username) := Received(shared[old(c.username)], message)]
      ensures !old(Serves(c)) ==>
                manager.View() == Overheard(old(manager.View()), old(c.State()), message) &&
                c.State() == Received(old(c.State()), message)
    {
      hide SameLevel, ClientManager.Valid, Broadcast, Overheard, Client.State;
      ghost var registered := Serves(c);
      OthersAre(c);
      Fields(c);
      ShareWithLevel(c, message);
      Fields(c);
      ghost var shared := manager.View();
      c.AddToInbox(message);
      Fields(c);
      if registered {
        assert manager.View() == shared[c.username := Received(shared[c.username], message)];
      } else {
        assert c !in manager.clients.Values;
        assert manager.View() == shared;
      }
    }

    method BuildChat(username: Bytes, content: Bytes) returns (message: Bytes)
      ensures message == ChatMessage(username, content)
    {
      hide EncodeString, EmitValue;
      var reply := new Reply();
      reply.AddChar(MESSAGE);
      reply.AddString(username);
      reply.AddString(content);
      reply.AddBool(false);
      message := reply.buffer;
    }

    /** add_to_inbox with a registered initiator is Server.Broadcast, with any other Server.Overheard. */
    method ShareWithLevel(c: Client, message: Bytes)
      requires Indexed()
      modifies manager.clients.Values
      ensures Indexed() && c.State() == old(c.State())
      ensures manager.clients == old(manager.clients) && manager.order == old(manager.order)
      ensures old(Serves(c)) ==> Serves(c) && manager.View() == Broadcast(old(manager.View()), c.username, message)
      ensures !old(Serves(c)) ==> manager.View() == Overheard(old(manager.View()), old(c.State()), message)
    {
      hide Less, Sorted, Client.State, Received;
      ghost var registered := Serves(c);
      Fields(c);
      forall n | n in manager.clients
        ensures manager.clients[n].State().levelPath == manager.clients[n].levelPath
      {
        Fields(manager.clients[n]);
      }
      assert forall n :: n in manager.clients && (n != c.username || !registered) ==> manager.clients[n] != c;
      ghost var before, self := manager.View(), c.State();
      manager.AddToInbox(message, c);
      if registered {
        BroadcastIs(before, manager.View(), c.username, message);
      } else {
        OverheardIs(before, manager.View(), self, message);
      }
    }

    /** Two farewells to everybody else on the level, and then everybody is removed from the registry, even when
        the client that leaves was refused at sign-on. */
    method ClientDisconnected(thisClient: Client?)
      requires manager.Valid()
      modifies manager, manager.clients.Values
      ensures manager.Valid() && (old(Indexed()) ==> Indexed())
      ensures thisClient == null ==>
              manager.clients == old(manager.clients) && manager.Snapshot() == old(manager.Snapshot())
      ensures thisClient != null ==> manager.Snapshot() == AFTER_DISCONNECT
      ensures thisClient != null ==>
                (manager.clients == Without(old(manager.clients), thisClient) <==>
                 forall n :: n in old(manager.clients) ==> old(manager.clients)[n] == thisClient)
      ensures thisClient != null ==>
                forall n :: n in old(manager.clients) ==>
                  var c := old(manager.clients)[n];
                  if c != thisClient && old(manager.clients[n].levelPath) == old(thisClient.levelPath) then
                    Farewells.Bereft(old(manager.clients[n].State()), c.State(), old(thisClient.username))
                  else c.State() == old(manager.clients[n].State())
    {
      hide Parted, Farewells.Bereft;
      if thisClient == null {
        return;
      }
      WithoutEmpty(manager.clients, thisClient);
      Farewell(thisClient);
      manager.RemoveClient(thisClient);
    }

    method Farewell(c: Client)
      requires manager.Valid()
      modifies manager.clients.Values
      ensures manager.Valid() && manager.clients == old(manager.clients) && manager.order == old(manager.order)
      ensures forall n :: n in manager.clients ==>
                if manager.clients[n] != c && old(manager.clients[n].levelPath) == old(c.levelPath) then
                  Farewells.Bereft(old(manager.clients[n].State()), manager.clients[n].State(), old(c.username))
                else manager.clients[n].State() == old(manager.clients[n].State())
    {
      hide NoticeMessage, Less, Sorted, EncodeString, Farewells.Bereft;
      ghost var leaver := c.State();
      var left := Notice(c.username + Text(" has left the room."));
      var remove := BuildRemove(c.username);
      manager.AddToInbox(left, c);
      manager.AddToInbox(remove, c);
      forall n | n in manager.clients
        ensures Farewells.Bereft(old(manager.clients[n].State()), Parted(old(manager.clients[n].State()), leaver, true),
                                 leaver.username)
      {
        Farewells.PartedReadsBack(old(manager.clients[n].State()), leaver);
      }
    }

    method BuildRemove(username: Bytes) returns (message: Bytes)
      ensures message == [REMOVE_CHARACTER] + EncodeString(username)
    {
      var remove := new Reply();
      remove.AddChar(REMOVE_CHARACTER);
      remove.AddString(username);
      message := remove.buffer;
    }
  }

  /** The registry without one client object: what removing that client should leave. */
  function Without(clients: map<Bytes, Client>, c: Client): map<Bytes, Client>
  {
    map n | n in clients && clients[n] != c :: clients[n]
  }

  /** Removing a client should leave nobody if and only if nobody else is registered, under whatever names. */
  lemma WithoutEmpty(clients: map<Bytes, Client>, c: Client)
    ensures Without(clients, c) == map[] <==> forall n :: n in clients ==> clients[n] == c
  {
    if Without(clients, c) == map[] {
      forall n | n in clients
        ensures clients[n] == c
      {
        assert n !in Without(clients, c);
      }
    }
  }

  lemma GoAwayPlain()
    ensures CStr(Text("Go away!")) == Text("Go away!")
  {
    var s := Text("Go away!");
    assert s == [71, 111, 32, 97, 119, 97, 121, 33];
    StrLenUnique(s, 8);
    assert s[..8] == s;
  }

  lemma NoAnswers(cfg: Config, st: State)
    requires OrderCovered(st)
    ensures forall c :: Answers(cfg, st, c, SIGN_ON) == []
    ensures forall c :: Saved(cfg, c, SIGN_ON) == c
  {
  }

  lemma NotTaken(cfg: Config, st: State, a: Application)
    requires Refusal(cfg, st, a).None? && forall n :: n in st.clients ==> st.clients[n].username == n
    ensures a.username !in st.clients
  {
  }

  /** A broadcast, player by player. */
  lemma BroadcastIs(clients: map<Bytes, Session>, after: map<Bytes, Session>, me: Bytes, message: Bytes)
    requires me in clients && after.Keys == clients.Keys
    requires forall n :: n in clients ==>
               (after[n] == if n != me && clients[n].levelPath == clients[me].levelPath then
                  Received(clients[n], message) else clients[n])
    ensures after == Broadcast(clients, me, message)
  {
  }

  lemma OverheardIs(clients: map<Bytes, Session>, after: map<Bytes, Session>, c: Session, message: Bytes)
    requires after.Keys == clients.Keys
    requires forall n :: n in clients ==>
               (after[n] == if clients[n].levelPath == c.levelPath then Received(clients[n], message) else clients[n])
    ensures after == Overheard(clients, c, message)
  {
  }

  /** The registry after the first three parts of an update, player by player. */
  lemma SettledSteps(clients: map<Bytes, Session>, after: map<Bytes, Session>, me: Bytes, p: Packet, now: int)
    requires me in clients && after.Keys == clients.Keys
    requires after[me] == Refreshed(clients[me], p, now).0
    requires forall n :: n in clients && n != me ==>
               (after[n] == if FateAt(clients[me], p, now) == Announced && SameLevel(clients[n], clients[me])
                            then Received(clients[n], DiedNotice(clients[me])) else clients[n])
    ensures after == Settled(clients, me, p, now)
  {
    hide Refreshed, FateAt, NoticeMessage;
    RefreshedIdentity(clients[me], p, now);
  }

  // ---------------------------------------------------------------- steps of the loops

  lemma NothingStored(c: Session)
    ensures StoredAll(c, []) == c
  {
  }

  lemma StoredAllAppend(c: Session, rs: seq<Record>, r: Record)
    ensures StoredAll(c, rs + [r]) ==
            if r.value.Some? then Set(StoredAll(c, rs), r.tag, r.value.value) else StoredAll(c, rs)
  {
    hide StoreAll;
    StoreAllAppend(c.vars, rs, r);
    assert forall x :: x in rs + [r] <==> x in rs || x == r;
    assert Assigned(rs + [r]) == Assigned(rs) + if r.value.Some? then {r.tag} else {};
  }

  /** The setters of a revive, one after the other: the first three, the next two, and so on. */
  lemma SettersA(c: Session)
    ensures |REVIVE| == 11
    ensures Set(Set(Set(c, BLOOD_HEALTH, ONE), PERMANENT_HEALTH, ONE), BLOOD_DAMAGE, ZERO) == StoredAll(c, REVIVE[..3])
  {
    hide StoredAll, Set;
    NothingStored(c);
    Stored(c, 0);
    Stored(c, 1);
    Stored(c, 2);
    assert REVIVE[..0] == [];
  }

  lemma SettersB(c: Session)
    ensures |REVIVE| == 11
    ensures var d := StoredAll(c, REVIVE[..3]);
            Set(Set(d, BLOCK_HEALTH, ONE), TEMP_HEALTH, ONE) == StoredAll(c, REVIVE[..5])
  {
    hide StoredAll, Set;
    Stored(c, 3);
    Stored(c, 4);
  }

  lemma SettersC(c: Session)
    ensures |REVIVE| == 11
    ensures var d := StoredAll(c, REVIVE[..5]);
            Set(Set(d, KNOCKED_OUT, AWAKE), BLOOD_AMOUNT, TEN) == StoredAll(c, REVIVE[..7])
  {
    hide StoredAll, Set;
    Stored(c, 5);
    Stored(c, 6);
  }

  lemma SettersD(c: Session)
    ensures |REVIVE| == 11
    ensures var d := StoredAll(c, REVIVE[..7]);
            Set(Set(d, RECOVERY_TIME, ZERO), ROLL_RECOVERY_TIME, ZERO) == StoredAll(c, REVIVE[..9])
  {
    hide StoredAll, Set;
    Stored(c, 7);
    Stored(c, 8);
  }

  lemma SettersE(c: Session)
    ensures |REVIVE| == 11
    ensures var d := StoredAll(c, REVIVE[..9]);
            Set(Set(d, REMOVE_BLOOD, BoolValue(true)), CUT_THROAT, BoolValue(false)) == StoredAll(c, REVIVE)
  {
    hide StoredAll, Set;
    Stored(c, 9);
    Stored(c, 10);
    assert REVIVE[..11] == REVIVE;
  }

  lemma Stored(c: Session, i: nat)
    requires i < |REVIVE|
    ensures REVIVE[i].value.Some?
    ensures StoredAll(c, REVIVE[..i + 1]) == Set(StoredAll(c, REVIVE[..i]), REVIVE[i].tag, REVIVE[i].value.value)
  {
    hide StoredAll, Set;
    StoredAllAppend(c, REVIVE[..i], REVIVE[i]);
    assert REVIVE[..i + 1] == REVIVE[..i] + [REVIVE[i]];
  }

  lemma SyncNobody(clients: map<Bytes, Session>, keys: map<Bytes, int>)
    ensures Sync(clients, [], keys) == (keys, [])
  {
  }

  lemma SyncStep(clients: map<Bytes, Session>, names: seq<Bytes>, i: nat, keys: map<Bytes, int>)
    requires i < |names| && forall n :: n in names ==> n in clients
    ensures var (keys1, out) := Sync(clients, names[..i], keys);
            var (keys2, more) := SyncOne(keys1, clients[names[i]]);
            Sync(clients, names[..i + 1], keys) == (keys2, out + more)
  {
    hide SyncOne;
    assert names[..i + 1][..i] == names[..i];
  }

  lemma ReverseStep(rep: seq<Bytes>, s: seq<Bytes>)
    requires s != []
    ensures rep + Reverse(s) == (rep + [s[|s| - 1]]) + Reverse(s[..|s| - 1])
  {
  }

  lemma ReverseEmpty()
    ensures Reverse([]) == []
  {
  }

  lemma SelectStep(i: nat, chosen: set<Byte>)
    requires i < |SELF_ORDER|
    ensures Select(SELF_ORDER[..i + 1], chosen) ==
            Select(SELF_ORDER[..i], chosen) + if SELF_ORDER[i] in chosen then [SELF_ORDER[i]] else []
  {
    hide SELF_ORDER;
    var ts := SELF_ORDER[..i + 1];
    assert ts[..|ts| - 1] == SELF_ORDER[..i] && ts[|ts| - 1] == SELF_ORDER[i];
  }

  lemma NothingEncoded(g: Grammar, vars: Vars)
    ensures Encode(RecordsFor(g, vars, [])) == []
  {
  }

  /** The size test of the peer loop is a test for an empty list of missing variables. */
  lemma EmptyEncoding(vars: Vars, types: seq<Byte>)
    ensures |Encode(RecordsFor(PeerGrammar, vars, types))| == 0 <==> types == []
  {
    NothingEncoded(PeerGrammar, vars);
  }

  lemma EncodeStep(g: Grammar, vars: Vars, ts: seq<Byte>, t: Byte)
    ensures Encode(RecordsFor(g, vars, ts + [t])) == Encode(RecordsFor(g, vars, ts)) + EmitRecord(RecordOf(g, vars, t))
  {
    assert RecordsFor(g, vars, ts + [t]) == RecordsFor(g, vars, ts) + [RecordOf(g, vars, t)];
    EncodeAppend(RecordsFor(g, vars, ts), RecordOf(g, vars, t));
  }
}
