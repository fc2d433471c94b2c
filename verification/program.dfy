/** The server as a program: connections that take turns at one request handler (src/connection.cpp).
    Whatever packets arrive, registry and replies are those of a run. */
module Program {
  import opened Wire
  import opened Clients
  import opened Server
  import opened Registry
  import opened Manager
  import opened Replication
  import opened Schedules
  import opened Revives
  import opened Handler

  class GameServer {
    const handler: RequestHandler
    /** The client each connection holds, once it has tried to sign on. */
    var clients: map<nat, Client>
    /** What each connection was sent, from its sign-on on if it has tried to sign on. */
    var written: map<nat, seq<Bytes>>
    /** The requests and disconnects so far. */
    ghost var events: seq<Event>
    /** The name under which a connection's client is registered. The others were refused, or lost their
        place when somebody disconnected. */
    ghost var players: map<nat, Bytes>

    /** The registry is that of the run, and so is what was sent to every player. */
    ghost predicate Valid()
      reads this, handler, handler.manager, handler.manager.clients.Values, clients.Values
    {
      && handler.Indexed()
      && handler.manager.Snapshot() == Run(handler.config, events).st
      && Consistent(handler.manager.clients, clients, players, written, Run(handler.config, events).sent)
    }

    constructor (config: Config)
      ensures Valid() && events == [] && clients == map[] && handler.config == config
    {
      var manager := new ClientManager();
      handler := new RequestHandler(manager, config, Whole([]));
      clients, written, events, players := map[], map[], [], map[];
    }

    /** What a request adds to the run. */
    ghost function Adds(thisClient: Client?, packet: Packet, now: int, g: Garbage): seq<Event>
      reads thisClient, handler.manager, handler.manager.clients.Values
    {
      if thisClient == null then Step(None, packet, now, g)
      else if handler.Serves(thisClient) then Step(Some(thisClient.username), packet, now, g)
      else [OutsideEvent(thisClient.State(), packet, now)]
    }

    /** One request, as a step of the run that the connections do not know of yet. */
    method Request(thisClient: Client?, packet: Packet, now: int, g: Garbage) returns (client: Client?, rep: seq<Bytes>)
      requires handler.Indexed() && handler.manager.Snapshot() == Run(handler.config, events).st
      requires handler.NeedsClient(packet.At(0)) ==> thisClient != null
      modifies handler, handler.manager, handler.manager.clients.Values, if thisClient == null then {} else {thisClient}
      ensures handler.Indexed()
      ensures var w, w' := Run(handler.config, events), Run(handler.config, events +
              old(Adds(thisClient, packet, now, g)));
              && handler.manager.Snapshot() == w'.st
              && (forall n :: n in old(handler.manager.clients) && old(handler.manager.clients[n]) != thisClient ==>
                    w'.sent(n) == w.sent(n))
              && (thisClient != null && old(handler.Serves(thisClient)) ==>
                    w'.sent(old(thisClient.username)) == w.sent(old(thisClient.username)) + rep)
              && (handler.manager.clients == old(handler.manager.clients) ||
                  (thisClient == null && client != null && client.username !in old(handler.manager.clients) &&
                   handler.manager.clients == old(handler.manager.clients)[client.username := client] &&
                   w'.sent(client.username) == rep))
      ensures if thisClient == null then client != null ==> fresh(client)
              else client == thisClient && client.username == old(thisClient.username)
    {
      hide Less, Sorted, Client.State, Run, React, OutsideState, Refusal, ReadApplication, Admitted, NewSession,
        Answers, EventOf, ClientManager.View, ClientManager.Valid, RequestHandler.Indexed, RequestHandler.Told,
        WellFormed;
      ghost var me := if thisClient == null then None else Some(thisClient.username);
      handler.Known();
      ghost var self := if thisClient == null then NewSession(g) else thisClient.State();
      ghost var st, inside := handler.manager.Snapshot(), thisClient == null || handler.Serves(thisClient);
      RegistryInvariant(handler.config, events);
      handler.ViewNames();
      if Admits(handler.config, st, me, packet) {
        NotTaken(handler.config, st, ReadApplication(packet));
      }
      client, rep := handler.HandleRequest(thisClient, packet, now, g);
      if inside {
        RunFollows(handler.config, events, me, packet, now, g, handler.manager.Snapshot(), rep);
      } else {
        OutsideFollows(handler.config, events, self, packet, now);
      }
      if client != null {
        Fields(client);
        AdmittedName(handler.config, ReadApplication(packet), g);
      }
    }

    /** A packet arrives on a connection. Afterwards the registry is that of the run extended by the
        request, and every player's connection was sent what the run says its player was sent. */
    method Receive(k: nat, packet: Packet, now: int, g: Garbage)
      requires Valid()
      requires handler.NeedsClient(packet.At(0)) ==> k in clients
      modifies this, handler, handler.manager, handler.manager.clients.Values, clients.Values
      ensures Valid() && events == old(events) + old(Adds(if k in clients then clients[k] else null, packet, now, g))
    {
      hide Run, ClientManager.View, ClientManager.Snapshot, ClientManager.Valid, Step, RequestHandler.Indexed,
        Consistent, Client.State;
      handler.Known();
      ConsistentAt(handler.manager.clients, clients, players, written, Run(handler.config, events).sent, k);
      var thisClient: Client? := null;
      if k in clients {
        thisClient := clients[k];
      }
      ghost var more := Adds(thisClient, packet, now, g);
      var client, rep := Request(thisClient, packet, now, g);
      ghost var w, w' := Run(handler.config, events), Run(handler.config, events + more);
      ghost var registered := handler.manager.clients;
      var clients' := if client == null then clients else clients[k := client];
      var line := if k !in written || (thisClient == null && client != null) then rep else written[k] + rep;
      ghost var players' := ServedPlayers(registered, players, k, client, if client == null then
        [] else client.username);
      Served(old(handler.manager.clients), registered, clients, players, written, w.sent, w'.sent, k, client, rep,
             if client == null then [] else client.username, line);
      Store(clients', written[k := line], players', events + more);
    }

    /** A connection closes. If it holds a client, whatever that is, nobody is registered afterwards. */
    method Disconnect(k: nat)
      requires Valid()
      modifies this, handler.manager, handler.manager.clients.Values
      ensures Valid() && k !in clients
      ensures events == old(events) + if k in old(clients) then [DisconnectEvent] else []
      ensures k in old(clients) ==> players == map[]
    {
      hide Run, ClientManager.View, ClientManager.Snapshot, ClientManager.Valid, Consistent, Client.State;
      var thisClient: Client? := null;
      if k in clients {
        thisClient := clients[k];
      }
      Closed(handler.manager.clients, clients, players, written, Run(handler.config, events).sent,
             Run(handler.config, events + [DisconnectEvent]).sent, k);
      handler.ClientDisconnected(thisClient);
      if thisClient == null {
        Store(clients - {k}, written, players, events);
      } else {
        DisconnectFollows(handler.config, events);
        handler.Nobody();
        Store(clients - {k}, written, map[], events + [DisconnectEvent]);
      }
    }

    /** Replica agreement between the objects: what was written to one player's connection and is due
        there about another player says what that player's client holds. */
    lemma WrittenAgrees(j: nat, k: nat, t: Byte)
      requires Valid() && j in players && k in players
      ensures k in clients && j in written
      ensures Due(Run(handler.config, events), players[j], players[k], t) ==>
                t in clients[k].vars && Holds(Replica(written[j], CStr(players[k])), t, clients[k].vars[t])
    {
      hide Run, Replica, CStr, Due, RequestHandler.Indexed;
      ConsistentAt(handler.manager.clients, clients, players, written, Run(handler.config, events).sent, j);
      ConsistentAt(handler.manager.clients, clients, players, written, Run(handler.config, events).sent, k);
      ReplicaAgreement(handler.config, events, players[j], players[k], t);
      handler.Known();
    }

    /** The connections after a request. */
    method Store(clients': map<nat, Client>, written': map<nat, seq<Bytes>>, ghost players': map<nat, Bytes>,
                 ghost events': seq<Event>)
      requires handler.Indexed() && handler.manager.Snapshot() == Run(handler.config, events').st
      requires Consistent(handler.manager.clients, clients', players', written', Run(handler.config, events').sent)
      modifies this
      ensures Valid() && events == events'
      ensures clients == clients' && written == written' && players == players'
    {
      hide Run, ClientManager.View, ClientManager.Snapshot, RequestHandler.Indexed, Consistent;
      clients, written, players, events := clients', written', players', events';
    }
  }

  /** Every connection's client is the one registered under its player's name, and was sent what it
      should have been; the clients of the other connections are not registered; and no two connections
      share a client. */
  ghost predicate Consistent(registered: map<Bytes, Client>, clients: map<nat, Client>, players: map<nat, Bytes>,
                             written: map<nat, seq<Bytes>>, sent: Bytes -> seq<Bytes>)
  {
    && (forall k :: k in players ==>
          && k in clients && k in written && players[k] in registered && registered[players[k]] == clients[k]
          && written[k] == sent(players[k]))
    && (forall k :: k in clients && k !in players ==> clients[k] !in registered.Values)
    && (forall j, k :: j in clients && k in clients && j != k ==> clients[j] != clients[k])
  }

  /** Connection k. */
  lemma ConsistentAt(registered: map<Bytes, Client>, clients: map<nat, Client>, players: map<nat, Bytes>,
                     written: map<nat, seq<Bytes>>, sent: Bytes -> seq<Bytes>, k: nat)
    requires Consistent(registered, clients, players, written, sent)
    ensures k in players ==>
              k in clients && k in written && players[k] in registered && registered[players[k]] == clients[k]
    ensures k in clients && k !in players ==> clients[k] !in registered.Values
  {
  }

  /** A connection less, and if it held a client an empty registry. */
  lemma Closed(registered: map<Bytes, Client>, clients: map<nat, Client>, players: map<nat, Bytes>,
               written: map<nat, seq<Bytes>>, sent: Bytes -> seq<Bytes>, sent': Bytes -> seq<Bytes>, k: nat)
    requires Consistent(registered, clients, players, written, sent)
    ensures k !in clients ==> Consistent(registered, clients - {k}, players, written, sent)
    ensures Consistent(map[], clients - {k}, map[], written, sent')
  {
    if k !in clients {
      assert clients - {k} == clients;
    }
  }

  /** The names after a request: that of a newcomer that was registered is new. */
  ghost function ServedPlayers(registered: map<Bytes, Client>, players: map<nat, Bytes>, k: nat, client: Client?,
                               name: Bytes): map<nat, Bytes>
  {
    if k !in players && client != null && client in registered.Values then players[k := name] else players
  }

  /** A request on connection k: of a player, of another client, or of a newcomer. */
  lemma Served(registered: map<Bytes, Client>, registered': map<Bytes, Client>, clients: map<nat, Client>,
               players: map<nat, Bytes>, written: map<nat, seq<Bytes>>, sent: Bytes -> seq<Bytes>,
               sent': Bytes -> seq<Bytes>, k: nat, client: Client?, rep: seq<Bytes>, name: Bytes, line: seq<Bytes>)
    requires Consistent(registered, clients, players, written, sent)
    requires k in players ==> sent'(players[k]) == sent(players[k]) + rep
    requires k in players ==> k in written && line == written[k] + rep
    requires forall n :: n in registered && (k in clients ==> registered[n] != clients[k]) ==> sent'(n) == sent(n)
    requires k in clients ==> client == clients[k] && registered' == registered
    requires k !in clients && client == null ==> registered' == registered
    requires k !in clients && client != null ==>
               && client !in clients.Values && client !in registered.Values && line == rep
               && (registered' == registered ||
                   (name !in registered && registered' == registered[name := client] && sent'(name) == rep))
    ensures Consistent(registered', if client == null then clients else clients[k := client],
                       ServedPlayers(registered', players, k, client, name), written[k := line], sent')
  {
    if k in clients {
      assert clients[k := client] == clients;
    } else if registered' != registered {
      assert registered'[name] == client;
    }
  }

  /** What a request of a newcomer or a registered player adds to the run. */
  function Step(me: Option<Bytes>, packet: Packet, now: int, g: Garbage): seq<Event>
  {
    match EventOf(me, packet, now, g)
    case None => []
    case Some(e) => [e]
  }

  /** The newcomer that a request admits. */
  predicate Admits(cfg: Config, st: State, me: Option<Bytes>, packet: Packet)
  {
    me.None? && packet.At(0) == SIGN_ON && Refusal(cfg, st, ReadApplication(packet)).None?
  }

  /** A step of the handler is a step of the run, in the registry and in what each player is sent. */
  lemma RunFollows(cfg: Config, events: seq<Event>, me: Option<Bytes>, packet: Packet, now: int, g: Garbage,
                   after: State, out: seq<Bytes>)
    requires me.Some? ==> me.value in Run(cfg, events).st.clients
    requires match EventOf(me, packet, now, g)
             case None => after == Run(cfg, events).st
             case Some(e) => Reaction(after, out) == React(cfg, Run(cfg, events).st, e)
    ensures var w, w' := Run(cfg, events), Run(cfg, events + Step(me, packet, now, g));
            && w'.st == after
            && forall n :: w'.sent(n) ==
                 if Admits(cfg, w.st, me, packet) && n == ReadApplication(packet).username then out
                 else if me == Some(n) then w.sent(n) + out
                 else w.sent(n)
  {
    hide Run, React, Refusal, ReadApplication;
    if EventOf(me, packet, now, g).Some? {
      OneMoreEvent(cfg, events, EventOf(me, packet, now, g).value);
    } else {
      assert events + [] == events;
    }
  }

  lemma OutsideFollows(cfg: Config, events: seq<Event>, c: Session, packet: Packet, now: int)
    ensures var w, w' := Run(cfg, events), Run(cfg, events + [OutsideEvent(c, packet, now)]);
            w'.st == OutsideState(w.st, c, packet, now) && forall n :: w'.sent(n) == w.sent(n)
  {
    hide Run, OutsideState;
    OneMoreEvent(cfg, events, OutsideEvent(c, packet, now));
  }

  lemma DisconnectFollows(cfg: Config, events: seq<Event>)
    ensures Run(cfg, events + [DisconnectEvent]).st == EMPTY
  {
    hide Run;
    OneMoreEvent(cfg, events, DisconnectEvent);
  }

  /** The run with one more event, and whose connection hears of it. */
  lemma OneMoreEvent(cfg: Config, events: seq<Event>, e: Event)
    ensures var w, w' := Run(cfg, events), Run(cfg, events + [e]);
            var r := React(cfg, w.st, e);
            && w'.st == r.st
            && (e.ChatEvent? ==> r.out == [])
            && forall n :: w'.sent(n) ==
                 if e.SignOnEvent? && Refusal(cfg, w.st, ReadApplication(e.packet)).None? &&
                    n == ReadApplication(e.packet).username then r.out
                 else if (e.UpdateEvent? || e.QueryEvent?) && e.who in w.st.clients && n == e.who then w.sent(n) + r.out
                 else w.sent(n)
  {
    hide Update, Chat, SignOn, Query, OutsideState, Refusal, ReadApplication, FateAt, FullAfter, Observed, Stale;
    assert forall s: seq<Bytes> :: s + [] == s;
    var all := events + [e];
    assert all[..|all| - 1] == events;
    if e.SignOnEvent? && Refusal(cfg, Run(cfg, events).st, ReadApplication(e.packet)).Some? {
      RefusedUnfolded(cfg, Run(cfg, events), e.packet, e.garbage);
    }
  }
}
