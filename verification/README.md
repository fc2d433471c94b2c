# OGMP server: a verified model

The server keeps the players of a multiplayer game in touch. Each player's game client sends tagged
variable updates; the server stores them, remembers which variables each update touched in a history
of ten entries whose keys wrap modulo 11, and on a player's own next update sends it, for every other
player on its level, just the variables it has not seen yet. Around this protocol sit the binary
message formats, per-player inboxes, death and revive rules, a level census, and a text codec and an
HTTP request parser that today's dispatch no longer reaches.

The project has two layers. The classes `Client`, `Reply`, `ClientManager`, `RequestHandler`,
`RequestObject` and `RequestParser` change their fields in place and loop as the source does; each
method is proved equal to a function on values. The theorems are about those functions, single steps
and whole runs. A run starts from an empty server and is a list of events: sign-ons, updates, chat lines
and other requests of registered players, requests of clients that are not registered (refused ones, and
those that a disconnect left behind), and disconnects. Handlers run one after another in one event loop,
so a handler is one step. What a player's connection was sent is part of the run, and what its game
client knows of a peer is computed by parsing those bytes. The class `GameServer` joins the layers:
whatever packets arrive on its connections and whenever these close, its registry is that of a run, and
every player's connection was written what the run says (`Program.GameServer.Receive`, `Disconnect`).

## Files

- `wire.dfy`: signed chars, C strings, the variable table, records and the decode loop as a function;
  `single.dfy`: what the bytes of a float mean.
- `history.dfy`: the wrapping history against the full history it abbreviates.
- `client.dfy`, `reply.dfy`, `manager.dfy`, `handler.dfy`: the objects of the source.
- `program.dfy`: connections that take turns at the handler, as a run.
- `server.dfy`: the handlers as steps; `registry.dfy`: what every step keeps of the registry.
- `replication.dfy`, `schedules.dfy`: the replication protocol over whole runs.
- `baseline.dfy`, `revive.dfy`, `speakers.dfy`: which variables a replica holds at all, what a revive
  leaves behind, and exactly when what was sent arrives.
- `gathering.dfy`, `failures.dfy`, `namesakes.dfy`: runs from an empty server that go wrong by lagging, by
  a revive, and by two players under one wire name, with what those do to a third in general.
- `visibility.dfy`, `inbox.dfy`, `health.dfy`, `death.dfy`, `selfupdate.dfy`, `teleport.dfy`: the other protocols.
- `messages.dfy`, `admission.dfy`, `farewell.dfy`, `queries.dfy`, `outsiders.dfy`: what the messages of each
  operation say to whoever reads their bytes, and who gets them.
- `census.dfy`: the level list. `text.dfy`: the text codec. `parser.dfy`: the request parser;
  `grammar.dfy`: the language it accepts.

## What turned out to be false, and the exact conditions

- The catch-up query is not complete for every lag. A lag is safe for every history if and only if it
  is at most nine (`LagLimit`); beyond that the answer is that of the lag modulo 11, and nothing at
  10 modulo 11 (`MissingExact`). One turn keeps a peer in agreement for every history if and only if the
  lag is at most nine or nothing is sent, at 0 or 10 modulo 11 (`TurnLimit`). For every lag there is a run
  in which the peer learns of a variable if and only if the lag is at most nine (`LagFails`). What is
  lost, and nothing else, is what was touched at a longer lag and not named (`ReplicaAgreement`), until
  it is sent again at a lag that is not 0 or 10 modulo 11 (`Delivered`).
- Nothing a player sent before its peer met it is ever caught up on: the peer's replica holds exactly
  what was sent after that (`ReplicaDomain`).
- A revive changes ten replicated variables without a history entry. Whatever happens next, until the
  player sends the variable again a peer keeps what it knew, and is right if and only if that already was
  the healed value (`ReviveNotReplicated`). There is a run in which it is wrong (`ReviveFails`).
- Names are compared whole at sign-on but cut at the first NUL on the wire, so two players of a level can
  share a wire name (`SharedNameAdmitted`). A third is then told of each of them exactly once if and only
  if nobody else has the name (`MutualVisibility`); its replica holds the value of whichever of them was
  written about last (`CurrentAfterTurnIff`), so after both have sent a variable it is right about both if
  and only if they agree on it (`SharedNameMisleads`), and there is a run in which they do not
  (`SharedNameFails`).
- `remove_client` removes every player, not the one that left. That is what its name promises if and
  only if nobody else was registered, under whatever name (`ClientDisconnected`). A client left behind
  keeps its keys by username; when somebody signs on under such a name its key is taken for an update of
  the same number, and what came before that is never sent (`StaleKey`).
- A text value survives encoding and decoding if and only if it has no `+` (`ValueRoundTripIff`), a list of
  maps if and only if moreover nothing in it is empty and no key has a separator (`MapsRoundTripIff`), and
  a binary string if and only if it has no NUL and at most 127 characters (`StringSurvivesIff`).
- So a message of several strings is read right, each up to its first NUL, if and only if none of them is longer
  than 127 then (`StringsReadBack`); this is the exact condition for the welcome, the spawn messages, the chat lines,
  the level list and the player list. That a player has entered, died or left is told by name if and only if the name
  has no NUL and is not too long for the line (`NoticeReadsBack`): 105, 117 and 108 characters.
- The level counts add up to the number of players if and only if no player is on a path that is
  configured twice (`CensusPartition`).
- A one-byte POST is refused: accepted lengths are exactly 2 to 10241 (`ContentLengthExact`). `reset`
  does not clear the content counter: a POST of acceptable length is then accepted with exactly its
  content if and only if no content was counted before (`ReusedParserIff`), and one parser gives back a
  list of requests if and only if at most one of them is a POST (`ReusedParserReadsAllIff`).

## Model

| member | source | states |
|---|---|---|
| Wire.StringSurvivesIff | src/reply.cpp:46-56 | a string written by add_to_buffers and read by GetString comes back if and only if it has no NUL and at most 127 characters |
| Wire.ReadStringOfEncodeString | src/request_handler.cpp:105-113 | at any place in a packet the string read back is the written one up to its first NUL if and only if that has at most 127 characters; of a longer one as many characters come back as the wrapped length byte says |
| Wire.ExitBounds | src/request_handler.cpp:287-380 | for arbitrary bytes the decode loop ends with the cursor between the packet's end and four bytes past it |
| Wire.StaleOnlyWhenCutShort | src/request_handler.cpp:287-380 | memory beyond the packet matters only if the last record is cut short |
| Wire.RecordsInGrammar | src/request_handler.cpp:287-380 | whatever the bytes, every decoded record has the payload type its tag demands |
| Wire.RecordsOfEncode | src/reply.cpp:37-76 | emitted records tokenise into exactly themselves, in order, with floats reversed, up to the end of the message |
| Wire.UpdatePacketRoundTrip | src/request_handler.cpp:287-380 | any list of whole records sent as an update packet is decoded to that list and the cursor stops at the end |
| Wire.TablesAgree | src/request_handler.cpp:465-584 | for every tag, what the switch that emits a peer's variables writes is what the switch of the decode loop reads |
| Singles.NonPositiveIff | src/request_handler.cpp:392-394 | the byte comparison of the death test is the comparison of the IEEE 754 number with zero, false for a NaN |
| Singles.FloatOrder | src/request_handler.cpp:115-121 | a float is received with its most significant byte first and sent with its least significant byte first |
| Singles.Numbers | src/request_handler.cpp:416-424 | the byte patterns used for 0.0f, 1.0f and 10.0f stand for these numbers |
| Wire.StoreAllLast | src/request_handler.cpp:291-379 | after the loop a variable has the value of the last record that assigns it |
| Wire.StoreAllUntouched | src/request_handler.cpp:291-379 | a variable that no record assigns keeps its value |
| History.WindowPush | src/client.cpp:436-452 | one add_history on the window of N updates gives the window of N+1 and the next key |
| History.PushAllIsWindow | src/client.cpp:436-452 | after any N calls the list has min(N,10) entries, entry j being update N-1-j with key (N-1-j) mod 11 |
| History.WindowKeysDistinct | src/client.cpp:480-485 | keys in the list are pairwise distinct, so the pair comparison with front() holds at index 0 only |
| History.MissingExact | src/client.cpp:475-509 | for every lag L the answer is the types of the last L mod 11 updates without repetitions, and empty when L mod 11 is 10 |
| History.DedupElements | src/client.cpp:494-503 | the collected list has the same elements and no repetitions |
| History.DedupOrder | src/client.cpp:494-503 | the collected list is in the order of first occurrence, oldest update first |
| History.MissingSound | src/client.cpp:475-509 | whatever the lag, no type is named that was untouched since the key |
| History.MissingComplete | src/client.cpp:475-509 | for a lag of at most nine the answer is exactly the set of types touched since the key |
| History.MissingEmptyIff | src/client.cpp:475-509 | the answer is empty exactly when the lag is 0 or 10 modulo 11 |
| History.LagLimit | src/client.cpp:475-509 | a lag loses nothing for every history if and only if it is at most nine |
| History.StaleKey | src/client.cpp:475-509 | a key left over from another player of the same name is answered as if it named the new player's update of that number |
| Clients.Client.constructor | src/client.cpp:9-19 | the initial values, with the velocities and the death flag left arbitrary |
| Clients.Client.SetAllVariablesOld | src/client.cpp:21-23 | lowers every flag and changes nothing else |
| Clients.Client.SetVariable | src/client.cpp:65-239 | a setter writes its field, raises its own flag and changes nothing else |
| Clients.Client.AddHistory | src/client.cpp:436-452 | the in-place insert, wrap and pop are the push of module History |
| Clients.Client.GetLastUpdateKey | src/client.cpp:454-459 | the newest key, or -1 without history |
| Clients.Client.GetKey | src/client.cpp:461-469 | the stored key of a peer, or -1 |
| Clients.Client.SetKey | src/client.cpp:471-473 | records the key of one peer and changes nothing else |
| Clients.Client.GetMissingUpdateVariableTypes | src/client.cpp:475-509 | the search and the nested collecting loops compute the catch-up query |
| Clients.Client.GetInboxMessage | src/client.cpp:266-270 | takes the newest message off the inbox |
| Clients.Client.AddToInbox | src/client.cpp:53-55 | appends to the inbox and changes nothing else |
| Replies.Reply.AddString | src/reply.cpp:46-56 | appends the length-prefixed C string |
| Replies.Reply.AddFloat | src/reply.cpp:72-76 | appends the four bytes in memory order |
| Replies.Reply.AddBool | src/reply.cpp:58-65 | appends 1 or 0 |
| Replies.Reply.AddInt | src/reply.cpp:67-70 | appends the low eight bits |
| Replies.Reply.AddSizeByte | src/reply.cpp:78-81 | puts the four size bytes in front |
| Replies.IntToByteArray | src/reply.cpp:83-89 | the loop from the last byte to the first yields the big-endian bytes |
| Replies.DoWrite | src/connection.cpp:61-83 | the queue goes out as the concatenation of its frames in queue order |
| Replies.SizeRoundTrip | src/reply.cpp:83-89 | four big-endian size bytes read back as the size, below 2^31 |
| Replies.UnframeStream | src/connection.cpp:61-83 | any queue of replies shorter than 2^31 bytes splits back into itself |
| Replies.StreamInjective | src/connection.cpp:61-83 | two queues produce the same bytes only if they are the same |
| Manager.ClientManager.AddClient | src/client_manager.cpp:12-16 | stores the player under its name, at its place in the map order |
| Manager.ClientManager.AddToInbox | src/client_manager.cpp:42-60 | exactly the players other than the initiator on its level get the message, or everybody without an initiator |
| Manager.ClientManager.GetClients | src/client_manager.cpp:87-113 | the whole registry without an initiator; with one, registered or not, the players of other names on its level, in map order |
| Manager.ClientManager.GetPlayerList | src/client_manager.cpp:159-170 | names and characters of all players on the initiator's level, itself among them, in map order |
| Manager.ClientManager.RemoveClient | src/client_manager.cpp:62-73 | with an initiator the registry is emptied, without one it is unchanged |
| Handler.RequestHandler.GetString | src/request_handler.cpp:105-113 | reads as many characters as the signed length byte says, none if negative |
| Handler.RequestHandler.GetFloat | src/request_handler.cpp:115-121 | reads four bytes in reverse |
| Handler.RequestHandler.GetBool | src/request_handler.cpp:123-130 | true exactly for the byte 1 |
| Handler.RequestHandler.GetInt | src/request_handler.cpp:132-136 | the signed byte |
| Handler.RequestHandler.GetApplication | src/request_handler.cpp:147-155 | five strings and three floats in order |
| Handler.RequestHandler.FindLevelName | src/request_handler.cpp:164-170 | the name of the first configured map whose path matches as a C string, else the given name |
| Handler.RequestHandler.Check | src/request_handler.cpp:157-199 | refuses an application exactly if a name is shorter than two bytes, its path is neither configured nor other maps allowed, or somebody has its username; the refusal reads as type 10 and the text of the first of these |
| Handler.RequestHandler.HandleSignOn | src/request_handler.cpp:138-272 | on a connection without a client, the registry and replies of the sign-on step: the new client is registered under its name exactly if it passes the three tests, and otherwise is as constructed and the one reply is the text of the first test it fails; on any other connection nothing |
| Handler.RequestHandler.DecodeUpdate | src/request_handler.cpp:283-383 | the decode loop stores every record, raises their flags, records the tags and stops at the exit index |
| Handler.RequestHandler.DrainInbox | src/request_handler.cpp:385-389 | empties the inbox into the replies, newest first |
| Handler.RequestHandler.JudgeDeath | src/request_handler.cpp:391-434 | announce once, revive after the delay, or lower the flag, for any client; the flag is up afterwards exactly if a health is not above zero or the player is not awake, and a revive comes exactly if the flag was up then and more than five seconds have passed; who receives the announcement |
| Handler.RequestHandler.AddChangedVariables | src/request_handler.cpp:600-701 | appends a record for each raised flag but the velocities', in source order |
| Handler.RequestHandler.AddOtherClientVariables | src/request_handler.cpp:465-584 | appends a record for each missing type, a bare tag for those without a value |
| Handler.RequestHandler.SyncPeer | src/request_handler.cpp:439-462 | one round of the peer loop: the new key and the message, dropped when no longer than its header |
| Handler.RequestHandler.SyncPeers | src/request_handler.cpp:436-462 | the peer loop of any client, registered or not, over the level in map order |
| Handler.RequestHandler.HandleUpdate | src/request_handler.cpp:274-463 | the whole handler is the update step on the registry, with its replies in order, for a registered client, and the outsider's update for any other |
| Handler.RequestHandler.HandleChatMessage | src/request_handler.cpp:703-717 | the line goes to the level and back to the sender, under the name it signed on with, whether it is registered or not |
| Handler.RequestHandler.HandleSavePosition | src/request_handler.cpp:719-730 | saves the position if teleporting is allowed and changes nothing else |
| Handler.RequestHandler.HandleLoadPosition | src/request_handler.cpp:732-744 | the saved position, if teleporting is allowed |
| Handler.RequestHandler.HandleServerInfo | src/request_handler.cpp:825-831 | the server's name and the number of players as a char |
| Handler.RequestHandler.HandleLevelList | src/request_handler.cpp:833-838 | the level list: parsed back, an entry for each configured map with its name, its path and its number of players, and then one for each other path in use, in registry order, with the level name of the first player on it, if and only if all of these strings are short |
| Handler.RequestHandler.HandlePlayerList | src/request_handler.cpp:818-823 | names and characters of the players on the client's level, nothing without a client |
| Handler.RequestHandler.HandleOther | src/request_handler.cpp:764-805 | the remaining cases of the dispatch: the answers, and at most the saved position changes |
| Handler.RequestHandler.HandleRequest | src/request_handler.cpp:746-810 | the first byte selects the step: registry and replies are those of one event of a run for a newcomer or a player, and the outsider's request for any other client, with every message type answered |
| Handler.RequestHandler.ClientDisconnected | src/request_handler.cpp:840-861 | every registered object but the one that leaves, on its level, ends with two more messages: a notification that reads as the name and " has left the room.", exactly if the name allows it, and a removal (type 4) of that name; nobody else gets any; then the registry is empty, which is the registry without this client object if and only if nobody else was registered |
| Handler.WithoutEmpty | src/client_manager.cpp:62-73 | taking one client object out leaves nobody if and only if no other object is registered under any name |
| Handler.EmptyEncoding | src/request_handler.cpp:456-459 | the buffer-size test skips a peer exactly when no variable is missing |
| Program.GameServer.Receive | src/connection.cpp:36-59 | after every packet on any connection, of whatever client, the registry is that of the run so far, and each player's connection was written what the run says |
| Program.GameServer.Disconnect | src/connection.cpp:21-24 | the closing of a connection is the disconnect of the run, and the other connections keep their clients as outsiders |
| Program.GameServer.WrittenAgrees | src/request_handler.cpp:436-463 | replica agreement between the objects: a due variable parsed from what was written to a connection has the value the other player's client holds |
| Program.RunFollows | src/request_handler.cpp:746-810 | one dispatched request extends the run by its event, in the registry and in what each player was sent |
| Registry.InsertKeySorted | src/client_manager.cpp:12-16 | inserting a name keeps the iteration order sorted by unsigned bytes |
| Registry.LessIff | src/client_manager.cpp:12-16 | the order of the map: at the first difference the smaller unsigned byte, or the end of the shorter name |
| Registry.PeersSorted | src/client_manager.cpp:87-113 | the peers of any client come in registry order |
| Registry.FirstByte | src/request_handler.cpp:746-810 | what the first byte selects: 0 a sign-on, 5 an update, 1 a chat line, 7 the saving of the position, and an answer for everything else |
| Registry.ReactWellFormed | src/request_handler.cpp:746-861 | every event keeps the registry invariant, and all but a disconnect every player's name, team and level |
| Registry.OutsiderReachesNobody | src/request_handler.cpp:157-199 | whatever a client refused at sign-on sends afterwards, the registry stays as it is |
| Registry.PeersOfRegistered | src/client_manager.cpp:87-113 | for a registered player the filter by name is the filter by identity |
| Replication.LearnUpdate | src/request_handler.cpp:440-461 | a peer message teaches a game client exactly the listed variables with their values, for the named peer only |
| Replication.SenderWrites | src/request_handler.cpp:283-434 | an update changes only the variables it names or revives, and keeps the stored history the window of the full one |
| Replication.AgreesAfterWrite | src/request_handler.cpp:287-383 | agreement survives the sender's own update |
| Replication.SyncKeys | src/request_handler.cpp:439-462 | the peer loop changes each peer's key once, as if it were the only peer |
| Replication.SyncLearns | src/request_handler.cpp:439-462 | messages about other peers do not disturb what is learnt about one |
| Replication.FirstContact | src/request_handler.cpp:448-452 | first contact records the newest key and sends nothing |
| Replication.ObserveOne | src/request_handler.cpp:446-461 | after the observer's turn the key names a known update, and whatever the lag the replica agrees on all that is not lost; in time nothing is |
| Replication.CatchUp | src/request_handler.cpp:454-461 | the message of one turn, at any lag, leaves the replica with the current value of every variable sent since first contact that is neither revived nor lost |
| Replication.NamedIff | src/client.cpp:475-509 | a variable is named exactly if one of the last (lag mod 11) updates touched it and the lag is not 10 modulo 11 |
| Replication.TurnLimit | src/request_handler.cpp:446-461 | one turn at a lag keeps agreement for every history if and only if the lag is at most nine or is 0 or 10 modulo 11 |
| Replication.MinorUnfolded | src/request_handler.cpp:703-744 | chat lines, other requests and the requests of unregistered clients change inboxes and saved positions only, and send nothing that updates or spawns a character |
| Replication.NextKeepsInvariant | src/request_handler.cpp:746-861 | every event keeps the replication invariant of all pairs of players |
| Replication.RunInvariant | src/request_handler.cpp:746-861 | the replication invariant holds after every run, disconnects included |
| Replication.RegistryInvariant | src/client_manager.cpp:12-16 | in every run the registry is sorted and indexed by username and no username occurs twice |
| Schedules.ReplicaAgreement | src/request_handler.cpp:436-463 | in every run and at any lags, every variable sent after the baseline, neither pending nor lost nor revived since last sent, has the sender's current value in the replica parsed from the observer's bytes |
| Schedules.TimelyAgreement | src/request_handler.cpp:436-463 | with a lag of at most nine at each of the observer's turns nothing is lost |
| Schedules.SteadyTrails | src/request_handler.cpp:446-461 | with at most nine updates between an observer's turns, once it has met the sender, the lag is always the number of the sender's updates since the observer's last turn, so zero right after it |
| Schedules.SteadyReplication | src/request_handler.cpp:436-463 | on such schedules nothing is lost: right after each turn the replica is current |
| Baseline.TurnReports | src/request_handler.cpp:446-461 | one turn at a lag of at most nine adds exactly the pending variables to the replica |
| Baseline.ReplicaDomain | src/request_handler.cpp:446-461 | in every run with lag at most nine the replica holds exactly the variables sent after first contact and up to the key |
| Revives.TurnLeaves | src/request_handler.cpp:446-461 | whatever the lag, a turn leaves alone a variable untouched since the key |
| Revives.SilenceLeaves | src/request_handler.cpp:436-463 | through any events in which the sender does not send a variable, the replica of it stays the same |
| Revives.StaysHealed | src/request_handler.cpp:415-429 | the healed value stays through any events in which the player does not send the variable |
| Revives.ReviveNotReplicated | src/request_handler.cpp:415-429 | after a revive, until the variable is sent again, a peer is right about it if and only if it already held the healed value |
| Gathering.AllAdmitted | src/request_handler.cpp:183-194 | any list of different usernames is admitted to one level, whatever they share up to a NUL |
| WireNames.SharedNameAdmitted | src/request_handler.cpp:183-194 | usernames equal up to a NUL are both admitted, and a third player is told twice of the one wire name |
| Speakers.LastSpeakerWins | src/request_handler.cpp:439-462 | the peer loop leaves in the replica of a wire name the value of the last peer of that name about which the variable was sent |
| Speakers.CurrentAfterTurnIff | src/request_handler.cpp:436-463 | in every run, whoever shares names, exactly when an observer is right about a peer's variable after its turn |
| Speakers.TurnIff | src/request_handler.cpp:436-463 | in every run and at every lag, for a peer with a wire name of its own: right after the turn if and only if one of the last (lag mod 11) updates sent the variable and the lag is not 10 modulo 11, or right before |
| Speakers.Delivered | src/request_handler.cpp:436-463 | after any run, a variable in a sender's packet has the sender's value in the observer's replica right after the observer's next update if and only if they have met and the lag is then not 0 or 10 modulo 11, or the replica was right already; also when that packet revives the sender |
| Failures.LagFails | src/client.cpp:475-509 | for every lag a run from an empty server in which a variable arrives if and only if the lag is at most nine, and otherwise is still to come only at 0 and 10 modulo 11 |
| Failures.ReviveFails | src/request_handler.cpp:415-429 | a run from an empty server, with any silent continuation, in which the sender is awake and the observer takes it to be knocked out |
| WireNames.SharedNameMisleads | src/request_handler.cpp:436-463 | with two players under one wire name, after both send a variable the observer is right about both if and only if their values are equal |
| WireNames.SharedNameFails | src/request_handler.cpp:436-463 | a run from an empty server, nobody lagging, after which a player is wrong about one of two namesakes |
| Visibility.SpawnNames | src/request_handler.cpp:261-269 | a spawn message names its player up to the first NUL and nobody else |
| Visibility.RosterCount | src/request_handler.cpp:232-246 | the replies to a sign-on introduce each player on the level once |
| Visibility.EveryoneTold | src/request_handler.cpp:219-271 | in every run the spawn messages under a name, delivered or pending, number the other players of that name on the level |
| Visibility.MutualVisibility | src/request_handler.cpp:219-271 | of two players each has exactly one spawn message for the other if they share a level and none otherwise, if and only if no third player of the level has the wire name |
| Inbox.StepMail | src/client_manager.cpp:42-60 | a step adds to an inbox exactly what it addresses to the player, after draining what was there |
| Inbox.InboxConservation | src/request_handler.cpp:385-389 | what was addressed to a player is its drained batches, each read backwards, followed by its inbox |
| Inbox.NothingLostOrRepeated | src/client.cpp:266-270 | delivered plus pending equals addressed as multisets |
| Health.VerdictIff | src/request_handler.cpp:391-415 | alive if and only if after the packet variables 10, 7 and 9 are above zero as numbers (or NaNs) and variable 14 is 0; otherwise announced if the flag is down, and with the flag up revived if and only if more than five seconds have passed |
| Health.VerdictKept | src/request_handler.cpp:396-433 | the flag afterwards is that finding; an announcement stamps the clock and is the one message left in the own inbox |
| Health.RevivedValues | src/request_handler.cpp:415-430 | after a revive, in bytes: 0.0f in 6, 12 and 13, 1.0f in 7 to 10, 10.0f in 11, 0 in 14, false in 18 and 24, and everything else as the packet left it; without one every variable is as the packet left it |
| Health.DeathTold | src/request_handler.cpp:396-413 | the announcement goes to everybody else on the level and to nobody else, and reads as the name and " has died." if and only if the name has no NUL and at most 117 characters |
| Death.TickLawful | src/request_handler.cpp:391-434 | one update announces, revives or waits as the findings (standing or not, by the numbers) and clocks so far demand |
| Death.DeathEpisodes | src/request_handler.cpp:391-434 | in every run the flag is up exactly if the last update found the player with a health not above zero or not awake, announcements are exactly the changes to that, and revives come exactly when more than five seconds have passed since the episode opened |
| Death.OneAnnouncementPerEpisode | src/request_handler.cpp:396-413 | between two announcements the player was found alive |
| Death.ReviveEndsEpisode | src/request_handler.cpp:415-434 | after a revive the next update that leaves the four tested variables alone finds the player alive |
| SelfUpdate.SelectElements | src/request_handler.cpp:600-701 | the tests select exactly the raised flags, each once |
| SelfUpdate.SelfOrderCovers | src/request_handler.cpp:600-701 | every variable but the velocities is tested |
| SelfUpdate.RevivedReplies | src/request_handler.cpp:283-429 | at the revive the raised flags are those of the packet and of the revive |
| SelfUpdate.UpdateSelfComplete | src/request_handler.cpp:415-429 | parsed back, the message (type 6) holds every variable the packet or the revive assigned, minus the velocities, each once, in the order of the tests and with its value, and remove_blood as true |
| Messages.SignOnRoundTrip | src/request_handler.cpp:147-155 | a sign-on packet is read back as the application it was made from |
| Messages.StringsReadBack | src/reply.cpp:46-56 | any number of strings in a row come back, each up to its first NUL, if and only if none is longer than 127 then, and then the reader stands behind them |
| Messages.NoticeReadsBack | src/request_handler.cpp:396-408 | a line of the server (type 1, speaker "server", notification byte) reads as the name and the text if and only if the name has no NUL and both together have at most 127 characters |
| Messages.SpawnReadsBack | src/request_handler.cpp:261-269 | a spawn message (type 3) reads back as both names, the character and the position, to its end, if and only if none of the strings is longer than 127 |
| Messages.NewcomerReadsBack | src/request_handler.cpp:201-271 | the spawn message about a newcomer carries its name twice, its character and its position, in this order |
| Messages.ChatReadsBack | src/request_handler.cpp:703-711 | a chat line (type 1, not a notification) shows the registered name and the text, if and only if neither is longer than 127 |
| Messages.ChatTold | src/request_handler.cpp:703-717 | the line with the second string of the packet goes to everybody on the level, the sender among them, once, and to nobody else |
| Messages.PeerMessageTokens | src/request_handler.cpp:465-584 | the message (type 9) tokenises, by the decode loop, into the missing types, each once, with current values, up to its end |
| Admission.RefusalIff | src/request_handler.cpp:157-199 | an application passes if and only if level name and path have two bytes or more, other maps are allowed or its path is configured, and nobody has its username; otherwise it is answered with the text of the first test it fails, as type 10 |
| Admission.SignOnIff | src/request_handler.cpp:138-220 | a sign-on registers the applicant, on the path it gave, if and only if it passes; otherwise the registry is unchanged and that text is the one reply |
| Admission.AllOnConfigured | src/request_handler.cpp:172-188 | where no other maps are allowed, in every run every registered player is on a configured path |
| Admission.RefusedReachesNobody | src/request_handler.cpp:157-199 | a refused client has no name and no level path, and what it sends next leaves the registry as it is |
| Admission.LevelNameIs | src/request_handler.cpp:164-170 | the name of the first configured map whose path matches as a C string, or the given one if none does |
| Admission.NewcomerStart | src/request_handler.cpp:201-217 | all fields of an admitted player: 1.0f in the healths, 10.0f of blood, the rest 0.0f, 0 or false, the applied position, also as the saved one, and nothing in history, keys and inbox |
| Admission.WelcomeReadsBack | src/request_handler.cpp:222-230 | the welcome (type 0) reads back as refresh rate, username, welcome text, team, character and level name, to its end, if and only if none is longer than 127 |
| Admission.NewcomerTold | src/request_handler.cpp:248-271 | everybody on the level ends with two more messages, that the newcomer has entered and its spawn message, and nobody else gets any |
| Admission.RosterIs | src/request_handler.cpp:219-246 | the newcomer is answered with the welcome and then with one spawn message for each player on its level, in registry order |
| Farewells.PartedReadsBack | src/request_handler.cpp:845-859 | the two farewells read as that the player of this name has left, and as the order to remove its character, with nothing behind it |
| Farewells.FarewellDelivered | src/request_handler.cpp:385-389 | the next update of a client left behind is answered first with the removal and then with the notification |
| Queries.LevelsReadBack | src/client_manager.cpp:213-218 | the entries of a level list come back if and only if no string in it is longer than 127 |
| Queries.LevelListReadsBack | src/request_handler.cpp:833-838 | the level list (type 12) names each configured map with its own name, its path and the number of players on it, in order, and then each other path in use with the level name of its first player |
| Queries.PlayerListReadsBack | src/request_handler.cpp:818-823 | the player list (type 13) reads as names and characters of everybody on the level, in registry order, to its end, if and only if none is longer than 127 |
| Queries.InfoReadsBack | src/request_handler.cpp:825-831 | the description (type 11) reads as the name of the server and, at its end, the number of registered players as a char |
| Queries.AnswerByKind | src/request_handler.cpp:746-816 | which first byte gets which answer: 8, 11, 12 and 13 theirs, 0, 1, 5, 6 and 7 none, anything else "Go away!" |
| Teleport.SavedIsParked | src/request_handler.cpp:719-730 | in every run the saved position is where the player last saved it, or signed on |
| Teleport.SavedComesBack | src/request_handler.cpp:732-744 | in every run a request to be put back is answered with that position as type 8, if teleporting is allowed |
| Outsiders.ServedLikePlayers | src/request_handler.cpp:274-463 | an update of an unregistered client is answered, and affects everybody and the client, as if it were registered |
| Outsiders.HeardLikePlayers | src/request_handler.cpp:703-717 | and so is its chat line |
| Census.GetLevels | src/client_manager.cpp:172-212 | the list the two loops build: configured maps first, under their own names and paths, then each other path in use once, in the order and under the level name of its first player, every count right, every player's path listed |
| Census.TotalOfPaths | src/client_manager.cpp:172-212 | with distinct paths the counts sum to the number of players |
| Census.CensusPartition | src/client_manager.cpp:172-212 | the counts sum to the number of players if and only if nobody is on a path that is configured twice |
| Census.GetLevelList | src/client_manager.cpp:172-219 | the emitted entries are the census of maps and players, in order; it is a partition of the players if and only if nobody is on a path configured twice |
| Text.SevenPassesAreOne | src/request_handler.cpp:879-886 | the seven replacement passes are one pass over the characters |
| Text.EncodedInHex | src/request_handler.cpp:880-886 | seven characters are written as a percent sign and the two lower-case hexadecimal digits of their codes, every other one as itself |
| Text.PercentFirstMatters | src/request_handler.cpp:879-886 | the passes with percent last give the same if and only if none of the other six characters occurs |
| Text.DecodeUrl | src/request_handler.cpp:72-96 | the loop computes the decoder, including both failure exits |
| Text.EscapeDecoded | src/request_handler.cpp:76-85 | an escape of any two hexadecimal digits, in either case, is decoded as the character with that code |
| Text.DecodeEncoded | src/request_handler.cpp:72-96 | decoding an encoded value turns each plus sign into a space and changes nothing else |
| Text.ValueRoundTripIff | src/request_handler.cpp:72-96 | a value survives the round trip if and only if it has no plus sign |
| Text.SeperateString | src/request_handler.cpp:38-52 | the find-and-erase loop ends and computes the split, for every non-empty separator |
| Text.JoinOfSplit | src/request_handler.cpp:38-52 | joining the tokens gives the input back, for every string and non-empty separator |
| Text.SplitTokensClean | src/request_handler.cpp:38-52 | no token contains the separator |
| Text.SplitOfJoin | src/request_handler.cpp:38-52 | splitting undoes joining when no token contains the one-character separator |
| Text.EncodeOutput | src/request_handler.cpp:867-892 | the loop joins the encoded fields with a separator before all but the first |
| Text.EncodeOutputs | src/request_handler.cpp:894-908 | the loop joins the encoded maps |
| Text.MapWritten | src/request_handler.cpp:867-890 | one more entry is written behind an ampersand, its value behind an equals sign |
| Text.MapsWritten | src/request_handler.cpp:894-906 | one more map is written behind a hash sign |
| Text.EncodedIsPlain | src/request_handler.cpp:879-886 | no structural character survives the encoding of a value |
| Text.DecodedIsPlain | src/request_handler.cpp:38-52 | whatever decodes is not empty, has no empty map, and no key of it has a separator |
| Text.MapsRoundTripIff | src/request_handler.cpp:867-908 | any list of maps survives encoding, splitting and decoding if and only if it and its maps are not empty, no key has a separator and no value a plus sign |
| Parser.RequestParser.ConsumeChar | src/request_parser.cpp:17-235 | one character moves parser and request as the transition function says |
| Parser.RequestParser.Reset | src/request_parser.cpp:13-15 | only the stage is reset |
| Parser.RequestParser.FindLength | src/request_parser.cpp:195-203 | the first Content-Length decides, otherwise the size stays |
| Parser.Consume | src/request_parser.cpp:17-235 | stages that extend the last header always have one |
| Parser.AtoiDecimal | src/request_parser.cpp:198 | a printed length is read back |
| Parser.FeedHeaders | src/request_parser.cpp:127-188 | any list of good header lines is appended in order |
| Parser.FeedContent | src/request_parser.cpp:218-231 | exactly the announced number of content bytes is read, whatever they are |
| Parser.ContentLengthExact | src/request_parser.cpp:189-231 | a POST is accepted if and only if it announces a length between 2 and 10241, and then takes exactly that many bytes; any other length, and none, is refused at the newline |
| Parser.CarriedCounter | src/request_parser.cpp:218-231 | with c bytes of content counted before, a POST loses its last c bytes, or is refused if it has no more |
| Parser.ReusedParserIff | src/request_parser.cpp:13-15 | a POST of acceptable length is accepted with exactly its content if and only if no content was counted before |
| Parser.ReusedParserReadsAllIff | src/request_parser.cpp:13-15 | one parser, reset between requests, gives a rendered list back if and only if at most one is a POST |
| Parser.ParserInvertsPrinter | src/request_parser.cpp:17-235 | a rendered request is accepted exactly at its last byte and comes back unchanged |
| Parser.PrefixesIndeterminate | src/request_parser.cpp:17-235 | every proper prefix of it is indeterminate |
| Parser.AcceptedIsWellFormed | src/request_parser.cpp:17-235 | whatever a fresh parser accepts is a well-formed request, and printing and parsing that gives it back |
| RequestGrammar.AcceptedIff | src/request_parser.cpp:17-235 | a fresh parser accepts an input if and only if that starts with a request written in an explicit grammar (request line, headers, folded lines, content), and then the request is the one written and the rest is left over |
| RequestGrammar.WrittenAccepted | src/request_parser.cpp:17-235 | whatever is written in the grammar is accepted at its last byte |
| RequestGrammar.FeedLine | src/request_parser.cpp:127-188 | one line of the head: a header is appended, a folded line adds its text, all of it and without the leading blanks, to the last header's value |
| RequestGrammar.ContentLengthIs | src/request_parser.cpp:195-203 | the length is that of the first header called Content-Length |
| RequestGrammar.AtoiReads | src/request_parser.cpp:198 | atoi reads a number behind white space and at most one sign, whatever follows it |
| RequestGrammar.TokenCharacters | src/request_parser.cpp:237-270 | the characters of methods and header names |

## Left out

- Sockets, timers, asynchronous completion and buffer lifetimes; writing a queue of replies appends frames in order.
- Mutexes: handlers run one after another in the event loop.
- Configuration, logging, MIME types and the command line; configuration values are constants of a run and the clock is a parameter of each update.
- Float arithmetic: a float is its four bytes, and the only question asked of it is the comparison with zero, for IEEE 754 singles on a little-endian machine.
- Clients.Client.SetVariable: stands for all 28 setters that raise a flag; the fields are one map by variable type and the flags the set of raised ones. Of the setters without a flag those of the saved position are fields written directly; the rest have no effect on the protocols and are not modelled.
- Handler.RequestHandler.HandleRequest: excludes a request that needs a client on a connection that never signed on, for which the original dereferences a missing client.
- Program.GameServer.Receive: the connections are the entries of two maps, one for the client and one for what was written.
- Handler.RequestHandler.DecodeUpdate: reads bytes beyond the packet as arbitrary values; in the original a packet that fills the receive buffer to its end and is cut short reads outside the array.
- Census.GetLevels: runs over the values of the players in registry order, since it changes none of them; a count above 127 is cut to a char in the emitted list, as in the original.
- Text.DecodeUrl: what the input stream makes of two characters that are not both hexadecimal digits is a parameter; the theorems hold for every choice.
- Text.SeperateString: the empty separator, for which the original loop does not end, is excluded.
- Parser.Consume: version numbers and lengths are unbounded integers; values that overflow an int are undefined in the original.
- Parser.RequestParser.ConsumeChar: its cases are spread over one method for each part of a request.
