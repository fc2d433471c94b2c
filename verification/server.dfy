/** The request handlers as steps on the registry of signed-on players (src/request_handler.cpp,
    src/client_manager.cpp). Every handler runs to completion before the next one starts. */
module Server {
  import opened Wire
  import opened History
  import opened Clients
  import Census

  // Message types, include/request_handler.hpp.
  const SIGN_ON: Byte := 0
  const MESSAGE: Byte := 1
  const SPAWN_CHARACTER: Byte := 3
  const REMOVE_CHARACTER: Byte := 4
  const UPDATE_GAME: Byte := 5
  const UPDATE_SELF: Byte := 6
  const SAVE_POSITION: Byte := 7
  const LOAD_POSITION: Byte := 8
  const UPDATE_CHARACTER: Byte := 9
  const ERROR: Byte := 10
  const SERVER_INFO: Byte := 11
  const LEVEL_LIST: Byte := 12
  const PLAYER_LIST: Byte := 13

  function Text(s: string): Bytes
  {
    seq<Byte>(|s|, i requires 0 <= i < |s| => if s[i] < 128 as char then s[i] as int else 0)
  }

  // ---------------------------------------------------------------- the registry

  /** The registered players and the order in which the std::map iterates over them. */
  datatype State = State(clients: map<Bytes, Session>, order: seq<Bytes>)

  const EMPTY := State(map[], [])

  /** The order of std::string: by unsigned bytes, a proper prefix first. */
  predicate Less(a: Bytes, b: Bytes)
  {
    b != [] &&
    (a == [] || Unsigned(a[0]) < Unsigned(b[0]) || (a[0] == b[0] && Less(a[1..], b[1..])))
  }

  function InsertKey(order: seq<Bytes>, name: Bytes): seq<Bytes>
  {
    if order == [] || Less(name, order[0]) then [name] + order
    else if name == order[0] then order
    else [order[0]] + InsertKey(order[1..], name)
  }

  /** add_client. */
  function Registered(st: State, c: Session): State
  {
    State(st.clients[c.username := c], InsertKey(st.order, c.username))
  }

  predicate SameLevel(a: Session, b: Session)
  {
    a.levelPath == b.levelPath
  }

  /** add_to_inbox with an initiator. */
  function Broadcast(clients: map<Bytes, Session>, me: Bytes, message: Bytes): (r: map<Bytes, Session>)
    requires me in clients
  {
    map n | n in clients ::
      if n != me && SameLevel(clients[n], clients[me]) then Received(clients[n], message) else clients[n]
  }

  /** get_clients with an initiator: the other players on its level, in registry order. */
  function Peers(clients: map<Bytes, Session>, order: seq<Bytes>, me: Bytes): (names: seq<Bytes>)
    requires me in clients && forall n :: n in order ==> n in clients
    ensures forall n :: n in names <==> n in order && n != me && SameLevel(clients[n], clients[me])
  {
    if order == [] then []
    else
      var names := Peers(clients, order[..|order| - 1], me);
      var last := order[|order| - 1];
      if last != me && SameLevel(clients[last], clients[me]) then names + [last] else names
  }

  /** get_clients for any client, registered or not: the players of other names on its level. */
  function PeersOf(clients: map<Bytes, Session>, order: seq<Bytes>, c: Session): (names: seq<Bytes>)
    requires forall n :: n in order ==> n in clients
    ensures forall n :: n in names <==> n in order && clients[n].username != c.username && SameLevel(clients[n], c)
  {
    if order == [] then []
    else
      var names := PeersOf(clients, order[..|order| - 1], c);
      var last := order[|order| - 1];
      if clients[last].username != c.username && SameLevel(clients[last], c) then names + [last] else names
  }

  /** add_to_inbox with an initiator that is not registered. */
  function Overheard(clients: map<Bytes, Session>, c: Session, message: Bytes): map<Bytes, Session>
  {
    map n | n in clients :: if SameLevel(clients[n], c) then Received(clients[n], message) else clients[n]
  }

  // ---------------------------------------------------------------- messages

  function NoticeMessage(content: Bytes): Bytes
  {
    [MESSAGE] + EncodeString(Text("server")) + EncodeString(content) + EmitValue(BoolValue(true))
  }

  function ChatMessage(username: Bytes, content: Bytes): Bytes
  {
    [MESSAGE] + EncodeString(username) + EncodeString(content) + EmitValue(BoolValue(false))
  }

  function SpawnMessage(c: Session, second: Bytes): Bytes
  {
    [SPAWN_CHARACTER] + EncodeString(c.username) + EncodeString(second) + EncodeString(c.character) +
    EmitValue(c.vars[POSITION_X]) + EmitValue(c.vars[POSITION_Y]) + EmitValue(c.vars[POSITION_Z])
  }

  function ErrorMessage(content: Bytes): Bytes
  {
    [ERROR] + EncodeString(content)
  }

  /** AddOtherClientVariables behind its header. */
  function UpdateMessage(c: Session, types: seq<Byte>): Bytes
  {
    [UPDATE_CHARACTER] + EncodeString(c.username) + Encode(RecordsFor(PeerGrammar, c.vars, types))
  }

  // ---------------------------------------------------------------- sign-on

  datatype Config = Config(maps: seq<(Bytes, Bytes)>, allowOtherMaps: bool, refreshRate: Single, welcome: Bytes,
                           serverName: Bytes, allowTeleport: bool)

  datatype Application = Application(username: Bytes, character: Bytes, levelName: Bytes, levelPath: Bytes,
                                     posx: Single, posy: Single, posz: Single)

  function AfterString(p: Packet, i: nat): nat
  {
    i + 1 + StringSize(p, i)
  }

  function ReadApplication(p: Packet): Application
  {
    var i1 := AfterString(p, 1);
    var i2 := AfterString(p, i1);
    var i3 := AfterString(p, i2);
    var i4 := AfterString(p, i3);
    var i5 := AfterString(p, i4);
    Application(ReadString(p, 1), ReadString(p, i1), ReadString(p, i2), ReadString(p, i3),
                ReadSingle(p, i5), ReadSingle(p, i5 + 4), ReadSingle(p, i5 + 8))
  }

  /** The name of the first configured map with this path, or the name the client gave. The
      comparison is with the C string of the configured path. */
  function LevelName(maps: seq<(Bytes, Bytes)>, levelPath: Bytes, given: Bytes): Bytes
  {
    if maps == [] then given
    else if levelPath == CStr(maps[0].1) then CStr(maps[0].0)
    else LevelName(maps[1..], levelPath, given)
  }

  /** The error HandleSignOn answers with, if any. */
  function Refusal(cfg: Config, st: State, a: Application): Option<Bytes>
  {
    if |a.levelName| < 2 || |a.levelPath| < 2 then
      Some(ErrorMessage(Text("The level you are trying to use is not valid!")))
    else if !cfg.allowOtherMaps && !(exists i :: 0 <= i < |cfg.maps| && cfg.maps[i].1 == a.levelPath) then
      Some(ErrorMessage(Text("This level is not allowed on this server!")))
    else if exists n :: n in st.clients && st.clients[n].username == a.username then
      Some(ErrorMessage(Text("Already a user with that username!")))
    else None
  }

  function Admitted(cfg: Config, a: Application, g: Garbage): Session
  {
    var c := NewSession(g).(levelName := LevelName(cfg.maps, a.levelPath, a.levelName),
                            levelPath := a.levelPath, username := a.username, team := a.username);
    var placed := Set(Set(Set(c, POSITION_X, FloatValue(a.posx)),
                          POSITION_Y, FloatValue(a.posy)), POSITION_Z, FloatValue(a.posz));
    placed.(character := a.character, signedOn := true,
            saved := Spot(FloatValue(a.posx), FloatValue(a.posy), FloatValue(a.posz)))
  }

  function WelcomeMessage(cfg: Config, c: Session): Bytes
  {
    [SIGN_ON] + EmitValue(FloatValue(cfg.refreshRate)) + EncodeString(c.username) +
    EncodeString(cfg.welcome) + EncodeString(c.team) + EncodeString(c.character) + EncodeString(c.levelName)
  }

  function SpawnMessages(clients: map<Bytes, Session>, names: seq<Bytes>): (ms: seq<Bytes>)
    requires forall n :: n in names ==> n in clients
    ensures |ms| == |names|
  {
    seq(|names|, i requires 0 <= i < |names| => SpawnMessage(clients[names[i]], clients[names[i]].username))
  }

  /** The registry after a handler and the replies to the connection it served. */
  datatype Reaction = Reaction(st: State, out: seq<Bytes>)

  function EnteredNotice(c: Session): Bytes
  {
    NoticeMessage(c.username + Text(" has entered the room."))
  }

  /** The other players of the level hear of a new player. */
  function Introduced(clients: map<Bytes, Session>, c: Session): map<Bytes, Session>
    requires c.username in clients
  {
    Broadcast(Broadcast(clients, c.username, EnteredNotice(c)), c.username, SpawnMessage(c, c.team))
  }

  ghost predicate OrderCovered(st: State)
  {
    forall n :: n in st.order <==> n in st.clients
  }

  lemma {:induction false} InsertKeyMembers(order: seq<Bytes>, name: Bytes)
    ensures forall n :: n in InsertKey(order, name) <==> n in order || n == name
  {
    if order != [] && !Less(name, order[0]) && name != order[0] {
      InsertKeyMembers(order[1..], name);
    }
  }

  function SignOn(cfg: Config, st: State, p: Packet, g: Garbage): Reaction
    requires OrderCovered(st)
  {
    var a := ReadApplication(p);
    var refusal := Refusal(cfg, st, a);
    if refusal.Some? then Reaction(st, [refusal.value])
    else
      var c := Admitted(cfg, a, g);
      var st1 := Registered(st, c);
      InsertKeyMembers(st.order, c.username);
      var spawns := SpawnMessages(st1.clients, Peers(st1.clients, st1.order, c.username));
      Reaction(State(Introduced(st1.clients, c), st1.order), [WelcomeMessage(cfg, c)] + spawns)
  }

  // ---------------------------------------------------------------- update

  function StoredAll(c: Session, rs: seq<Record>): Session
  {
    c.(vars := StoreAll(c.vars, rs), changed := c.changed + Assigned(rs))
  }

  /** The decode loop: all flags lowered, every record stored, a non-empty list of tags recorded. */
  function Decoded(c: Session, p: Packet): Session
  {
    var rs := Records(PeerGrammar, p, 1);
    var stored := StoredAll(c.(changed := {}), rs);
    if rs == [] then stored else AddedHistory(stored, Tags(rs))
  }

  function Reverse(s: seq<Bytes>): (r: seq<Bytes>)
    ensures |r| == |s|
    ensures forall i :: 0 <= i < |s| ==> r[i] == s[|s| - 1 - i]
  {
    if s == [] then [] else [s[|s| - 1]] + Reverse(s[..|s| - 1])
  }

  /** The death test; unconscious counts as dead. */
  predicate Dead(vars: Vars)
  {
    NonPositive(vars[PERMANENT_HEALTH]) || NonPositive(vars[BLOOD_HEALTH]) ||
    NonPositive(vars[TEMP_HEALTH]) || vars[KNOCKED_OUT] != AWAKE
  }

  const REVIVE: seq<Record> := [
    RawRecord(BLOOD_HEALTH, Some(ONE)), RawRecord(PERMANENT_HEALTH, Some(ONE)),
    RawRecord(BLOOD_DAMAGE, Some(ZERO)), RawRecord(BLOCK_HEALTH, Some(ONE)),
    RawRecord(TEMP_HEALTH, Some(ONE)), RawRecord(KNOCKED_OUT, Some(AWAKE)),
    RawRecord(BLOOD_AMOUNT, Some(TEN)), RawRecord(RECOVERY_TIME, Some(ZERO)),
    RawRecord(ROLL_RECOVERY_TIME, Some(ZERO)), RawRecord(REMOVE_BLOOD, Some(BoolValue(true))),
    RawRecord(CUT_THROAT, Some(BoolValue(false)))]

  const REVIVE_DELAY := 5

  /** The order in which AddChangedVariables tests the flags. The velocities are not among them. */
  const SELF_ORDER: seq<Byte> :=
    [6, 7, 8, 9, 10, 11, 12, 13, 15, 24, 18, 0, 1, 2, 3, 4, 5, 19, 20, 21, 22, 23, 14, 16, 17]

  function Select(ts: seq<Byte>, chosen: set<Byte>): (s: seq<Byte>)
  {
    if ts == [] then []
    else
      var s := Select(ts[..|ts| - 1], chosen);
      var t := ts[|ts| - 1];
      if t in chosen then s + [t] else s
  }

  function SelfMessage(c: Session): Bytes
  {
    [UPDATE_SELF] + Encode(RecordsFor(SelfGrammar, c.vars, Select(SELF_ORDER, c.changed)))
  }

  datatype Fate = Alive | Announced | Waiting | Revived

  function FateOf(c: Session, now: int): Fate
  {
    if !Dead(c.vars) then Alive
    else if !c.deathChanged then Announced
    else if now - c.timeOfDeath > REVIVE_DELAY then Fate.Revived
    else Waiting
  }

  function DiedNotice(c: Session): Bytes
  {
    NoticeMessage(c.username + Text(" has died."))
  }

  /** The player after the death branch, and the UpdateSelf reply if it was revived. */
  function Aftermath(c: Session, now: int): (Session, seq<Bytes>)
  {
    match FateOf(c, now)
    case Alive => (c.(deathChanged := false), [])
    case Announced => (Received(c.(deathChanged := true, timeOfDeath := now), DiedNotice(c)), [])
    case Waiting => (c, [])
    case Revived =>
      var healed := StoredAll(c, REVIVE);
      (Set(healed, REMOVE_BLOOD, BoolValue(false)), [SelfMessage(healed)])
  }

  /** One round of the peer loop: the observer's key for the peer and the message to send, if any. */
  function SyncOne(keys: map<Bytes, int>, peer: Session): (map<Bytes, int>, seq<Bytes>)
  {
    var key := if peer.username in keys then keys[peer.username] else -1;
    var newest := keys[peer.username := LastKey(peer.history)];
    if key == -1 then
      (if LastKey(peer.history) != -1 then newest else keys, [])
    else
      var types := Missing(peer.history, key);
      if types == [] then (keys, []) else (newest, [UpdateMessage(peer, types)])
  }

  function Sync(clients: map<Bytes, Session>, names: seq<Bytes>, keys: map<Bytes, int>): (map<Bytes, int>, seq<Bytes>)
    requires forall n :: n in names ==> n in clients
  {
    if names == [] then (keys, [])
    else
      var (keys1, out) := Sync(clients, names[..|names| - 1], keys);
      var (keys2, last) := SyncOne(keys1, clients[names[|names| - 1]]);
      (keys2, out + last)
  }

  /** The player as it stands when the peer loop starts, and the replies queued so far. */
  function Refreshed(c: Session, p: Packet, now: int): (Session, seq<Bytes>)
  {
    var decoded := Decoded(c, p);
    var (after, self) := Aftermath(decoded.(inbox := []), now);
    (after, Reverse(decoded.inbox) + self)
  }

  function FateAt(c: Session, p: Packet, now: int): Fate
  {
    FateOf(Decoded(c, p), now)
  }

  /** The registry when the peer loop starts. */
  function Settled(clients: map<Bytes, Session>, me: Bytes, p: Packet, now: int): map<Bytes, Session>
    requires me in clients
  {
    var own := clients[me := Refreshed(clients[me], p, now).0];
    if FateAt(clients[me], p, now) == Announced then Broadcast(own, me, DiedNotice(clients[me])) else own
  }

  function Update(st: State, me: Bytes, p: Packet, now: int): Reaction
    requires OrderCovered(st) && me in st.clients
  {
    var settled := Settled(st.clients, me, p, now);
    var (keys, updates) := Sync(settled, Peers(settled, st.order, me), settled[me].keys);
    Reaction(State(settled[me := settled[me].(keys := keys)], st.order),
             Refreshed(st.clients[me], p, now).1 + updates)
  }

  /** The registry when the peer loop of a client that is not in it starts. */
  function SettledOutside(clients: map<Bytes, Session>, c: Session, p: Packet, now: int): map<Bytes, Session>
  {
    if FateAt(c, p, now) == Announced then Overheard(clients, c, DiedNotice(c)) else clients
  }

  /** The registry, a client that is not in it, and the replies to that client. */
  datatype Outside = Outside(st: State, c: Session, out: seq<Bytes>)

  /** An update of a client that is not registered: one refused at sign-on, or one that was still
      connected when a disconnect emptied the registry. */
  function UpdateOutside(st: State, c: Session, p: Packet, now: int): Outside
    requires OrderCovered(st)
  {
    var (after, replies) := Refreshed(c, p, now);
    var settled := SettledOutside(st.clients, c, p, now);
    var (keys, updates) := Sync(settled, PeersOf(settled, st.order, after), after.keys);
    Outside(State(settled, st.order), after.(keys := keys), replies + updates)
  }

  // ---------------------------------------------------------------- chat and disconnect

  function Chat(st: State, me: Bytes, p: Packet): State
    requires me in st.clients
  {
    var message := ChatMessage(st.clients[me].username, ReadString(p, AfterString(p, 1)));
    var clients := Broadcast(st.clients, me, message);
    State(clients[me := Received(clients[me], message)], st.order)
  }

  /** A chat line of a client that is not registered. */
  function ChatOutside(st: State, c: Session, p: Packet): Outside
  {
    var message := ChatMessage(c.username, ReadString(p, AfterString(p, 1)));
    Outside(State(Overheard(st.clients, c, message), st.order), Received(c, message), [])
  }

  function LeftNotice(c: Session): Bytes
  {
    NoticeMessage(c.username + Text(" has left the room."))
  }

  function RemoveMessage(c: Session): Bytes
  {
    [REMOVE_CHARACTER] + EncodeString(c.username)
  }

  /** client_disconnected, for one player: the farewells, if the broadcast reaches it. */
  function Parted(c: Session, leaver: Session, reached: bool): Session
  {
    if reached then Received(Received(c, LeftNotice(leaver)), RemoveMessage(leaver)) else c
  }

  // ---------------------------------------------------------------- the other requests

  /** HandleSavePositionMessage, and nothing for any other request. */
  function Saved(cfg: Config, c: Session, kind: Byte): Session
  {
    if kind == SAVE_POSITION && cfg.allowTeleport then
      c.(saved := Spot(c.vars[POSITION_X], c.vars[POSITION_Y], c.vars[POSITION_Z]))
    else c
  }

  function LoadMessage(c: Session): Bytes
  {
    [LOAD_POSITION] + EmitValue(c.saved.x) + EmitValue(c.saved.y) + EmitValue(c.saved.z)
  }

  function InfoMessage(cfg: Config, st: State): Bytes
  {
    [SERVER_INFO] + EncodeString(cfg.serverName) + [ToChar(|st.order|)]
  }

  /** The players in registry order. */
  function InOrder(clients: map<Bytes, Session>, order: seq<Bytes>): (players: seq<Session>)
    requires forall n :: n in order ==> n in clients
    ensures |players| == |order|
  {
    seq(|order|, i requires 0 <= i < |order| => clients[order[i]])
  }

  function LevelsMessage(cfg: Config, st: State): Bytes
    requires OrderCovered(st)
  {
    [LEVEL_LIST] + Census.EncodeLevels(Census.LevelList(cfg.maps, InOrder(st.clients, st.order)))
  }

  /** Names and characters of the players on a level, the one that asks among them. */
  function PlayerEntries(players: seq<Session>, path: Bytes): Bytes
  {
    if players == [] then []
    else
      var last := players[|players| - 1];
      PlayerEntries(players[..|players| - 1], path) +
      if last.levelPath == path then EncodeString(last.username) + EncodeString(last.character) else []
  }

  function PlayersMessage(st: State, c: Option<Session>): Bytes
    requires OrderCovered(st)
  {
    [PLAYER_LIST] + if c.None? then [] else PlayerEntries(InOrder(st.clients, st.order), c.value.levelPath)
  }

  /** The replies to a request that is no sign-on, update or chat line. */
  function Answers(cfg: Config, st: State, c: Option<Session>, kind: Byte): seq<Bytes>
    requires OrderCovered(st)
  {
    if kind == LOAD_POSITION then (if cfg.allowTeleport && c.Some? then [LoadMessage(c.value)] else [])
    else if kind == SERVER_INFO then [InfoMessage(cfg, st)]
    else if kind == LEVEL_LIST then [LevelsMessage(cfg, st)]
    else if kind == PLAYER_LIST then [PlayersMessage(st, c)]
    else if kind in {SIGN_ON, UPDATE_GAME, UPDATE_SELF, MESSAGE, SAVE_POSITION} then []
    else [Text("Go away!")]
  }

  // ---------------------------------------------------------------- runs

  /** What can happen: a request of a newcomer, of a registered player, or of a client that is not
      registered, in whatever state that is; and the closing of a connection that holds a client. */
  datatype Event =
    | SignOnEvent(packet: Packet, garbage: Garbage)
    | UpdateEvent(who: Bytes, packet: Packet, now: int)
    | ChatEvent(who: Bytes, packet: Packet)
    | QueryEvent(who: Bytes, packet: Packet)
    | OutsideEvent(client: Session, packet: Packet, now: int)
    | DisconnectEvent

  /** What a request of a client that is not registered does to the registry. */
  function OutsideState(st: State, c: Session, p: Packet, now: int): State
    requires OrderCovered(st)
  {
    if p.At(0) == UPDATE_GAME then UpdateOutside(st, c, p, now).st
    else if p.At(0) == MESSAGE then ChatOutside(st, c, p).st
    else st
  }

  /** The event a packet is, by its first byte, on a connection without a client or with that of a
      registered player. Without a client only a sign-on changes anything. */
  function EventOf(who: Option<Bytes>, p: Packet, now: int, g: Garbage): Option<Event>
  {
    if who.None? then (if p.At(0) == SIGN_ON then Some(SignOnEvent(p, g)) else None)
    else if p.At(0) == UPDATE_GAME then Some(UpdateEvent(who.value, p, now))
    else if p.At(0) == MESSAGE then Some(ChatEvent(who.value, p))
    else Some(QueryEvent(who.value, p))
  }

  /** An event that is said to be of a registered player, but is not, changes nothing here. */
  function React(cfg: Config, st: State, e: Event): Reaction
    requires OrderCovered(st)
  {
    match e
    case SignOnEvent(p, g) => SignOn(cfg, st, p, g)
    case UpdateEvent(who, p, now) => if who in st.clients then Update(st, who, p, now) else Reaction(st, [])
    case ChatEvent(who, p) => Reaction(if who in st.clients then Chat(st, who, p) else st, [])
    case QueryEvent(who, p) => if who in st.clients then Query(cfg, st, who, p) else Reaction(st, [])
    case OutsideEvent(c, p, now) => Reaction(OutsideState(st, c, p, now), [])
    case DisconnectEvent => Reaction(EMPTY, [])
  }

  function Query(cfg: Config, st: State, who: Bytes, p: Packet): Reaction
    requires OrderCovered(st) && who in st.clients
  {
    Reaction(State(st.clients[who := Saved(cfg, st.clients[who], p.At(0))], st.order),
             Answers(cfg, st, Some(st.clients[who]), p.At(0)))
  }
}
