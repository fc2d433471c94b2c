/** The registry object (src/client_manager.cpp), method by method against the value it holds. */
module Manager {
  import opened Wire
  import opened Clients
  import opened Replies
  import opened Server
  import opened Registry

  /** The std::map of the players: the objects by username, and the usernames in iteration order. */
  class ClientManager {
    var clients: map<Bytes, Client>
    var order: seq<Bytes>

    ghost predicate Valid()
      reads this
    {
      && (forall n :: n in order <==> n in clients)
      && Sorted(order)
      && (forall m, n :: m in clients && n in clients && m != n ==> clients[m] != clients[n])
    }

    function View(): map<Bytes, Session>
      reads this, clients.Values
    {
      map n | n in clients :: clients[n].State()
    }

    function Snapshot(): State
      reads this, clients.Values
    {
      State(View(), order)
    }

    lemma Covered()
      requires Valid()
      ensures OrderCovered(Snapshot()) && forall n :: n in order ==> n in clients
    {
      hide Sorted, Less, Client.State;
    }

    constructor ()
      ensures Valid() && clients == map[] && order == [] && Snapshot() == EMPTY
    {
      clients, order := map[], [];
    }

    method AddClient(player: Client)
      requires Valid() && player !in clients.Values
      modifies this
      ensures Valid()
      ensures View() == old(View())[player.username := player.State()]
      ensures order == InsertKey(old(order), player.username)
      ensures clients == old(clients)[player.username := player]
    {
      hide Less, InsertKey, Sorted, Client.State;
      InsertKeyMembers(order, player.username);
      InsertKeySorted(order, player.username);
      clients := clients[player.username := player];
      order := InsertKey(order, player.username);
    }

    /** Whether a broadcast started by the initiator reaches the player. */
    predicate Reaches(initiator: Client?, player: Client)
      reads initiator, player
    {
      initiator == null || (player != initiator && player.levelPath == initiator.levelPath)
    }

    method AddToInbox(message: Bytes, initiator: Client?)
      requires Valid()
      modifies clients.Values
      ensures Valid() && clients == old(clients) && order == old(order)
      ensures forall n :: n in clients ==> clients[n].username == old(clients[n].username)
      ensures forall n :: n in clients ==>
                (clients[n].State() == if old(Reaches(initiator, clients[n])) then
                  Received(old(clients[n].State()), message)
                                       else old(clients[n].State()))
    {
      hide Less, Sorted, Client.State;
      SortedDistinct(order);
      for i := 0 to |order|
        invariant clients == old(clients) && order == old(order)
        invariant initiator != null ==> initiator.levelPath == old(initiator.levelPath)
        invariant forall n :: n in clients ==> clients[n].username == old(clients[n].username)
        invariant forall j :: 0 <= j < i ==>
                    (clients[order[j]].State() ==
                     if old(Reaches(initiator, clients[order[j]])) then
                        Received(old(clients[order[j]].State()), message)
                     else old(clients[order[j]].State()))
        invariant forall j :: i <= j < |order| ==> unchanged(clients[order[j]])
      {
        var item := clients[order[i]];
        Fields(item);
        if initiator != null {
          if item == initiator {
            continue;
          }
          if item.levelPath != initiator.levelPath {
            continue;
          }
        }
        item.AddToInbox(message);
        Fields(item);
      }
    }

    /** Without an initiator the whole registry; with one, registered or not, the players on its level
        under other names, in registry order. */
    method GetClients(initiator: Client?) returns (names: seq<Bytes>)
      requires Valid()
      ensures initiator == null ==> names == order
      ensures initiator != null ==> names == PeersOf(View(), order, initiator.State())
    {
      hide Less, Sorted, Client.State;
      if initiator == null {
        return order;
      }
      names := [];
      Fields(initiator);
      for i := 0 to |order|
        invariant forall n :: n in order[..i] ==> n in clients
        invariant names == PeersOf(View(), order[..i], initiator.State())
      {
        var item := clients[order[i]];
        Fields(item);
        assert order[..i + 1][..i] == order[..i];
        if item.username == initiator.username {
          continue;
        }
        if item.levelPath != initiator.levelPath {
          continue;
        }
        names := names + [order[i]];
      }
      assert order[..|order|] == order;
    }

    /** The names and characters of the initiator's level, without skipping the initiator. */
    method GetPlayerList(reply: Reply, initiator: Client?)
      requires Valid()
      modifies reply
      ensures OrderCovered(Snapshot())
      ensures reply.buffer == old(reply.buffer) +
                if initiator == null then [] else PlayerEntries(InOrder(View(), order), initiator.levelPath)
    {
      hide Client.State, EncodeString, PlayerEntries, Valid;
      Covered();
      NoEntries(if initiator == null then [] else initiator.levelPath);
      if initiator == null {
        return;
      }
      ghost var players := InOrder(View(), order);
      for i := 0 to |order|
        invariant reply.buffer == old(reply.buffer) + PlayerEntries(players[..i], initiator.levelPath)
      {
        var item := clients[order[i]];
        Fields(item);
        EntriesStep(players, i, initiator.levelPath);
        assert players[i] == item.State();
        if item.levelPath == initiator.levelPath {
          reply.AddString(item.username);
          reply.AddString(item.character);
        }
      }
      assert players[..|order|] == players;
    }

    /** The players, in registry order, as they are. */
    method Players() returns (players: seq<Session>)
      requires Valid()
      ensures OrderCovered(Snapshot()) && players == InOrder(View(), order)
    {
      hide Less, Sorted, Client.State;
      Covered();
      players := [];
      for i := 0 to |order|
        invariant players == InOrder(View(), order)[..i]
      {
        players := players + [clients[order[i]].State()];
      }
    }

    /** Everybody is collected for removal as soon as there is an initiator. */
    method RemoveClient(initiator: Client?)
      requires Valid()
      modifies this
      ensures Valid()
      ensures if initiator != null then clients == map[] && order == []
              else clients == old(clients) && order == old(order)
    {
      var removed: seq<Bytes> := [];
      for i := 0 to |order|
        invariant removed == if initiator != null then order[..i] else []
      {
        if initiator != null {
          removed := removed + [order[i]];
        }
      }
      for i := 0 to |removed|
        invariant Valid()
        invariant forall n :: n in clients <==> n in old(clients) && n !in removed[..i]
        invariant removed == [] ==> clients == old(clients) && order == old(order)
      {
        Erase(removed[i]);
        assert removed[..i + 1] == removed[..i] + [removed[i]];
      }
      assert removed[..|removed|] == removed;
      if initiator != null {
        assert removed == old(order)[..|old(order)|] == old(order);
        assert clients == map[];
        FirstCovered(order, clients.Keys);
      }
    }

    method Erase(name: Bytes)
      requires Valid()
      modifies this
      ensures Valid()
      ensures clients == old(clients) - {name}
    {
      hide Less, Erased;
      ErasedSorted(order, name);
      clients := clients - {name};
      order := Erased(order, name);
    }
  }

  lemma NoEntries(path: Bytes)
    ensures PlayerEntries([], path) == []
  {
  }

  lemma EntriesStep(players: seq<Session>, i: nat, path: Bytes)
    requires i < |players|
    ensures PlayerEntries(players[..i + 1], path) == PlayerEntries(players[..i], path) +
              if players[i].levelPath == path then
                 EncodeString(players[i].username) + EncodeString(players[i].character)
              else []
  {
    hide EncodeString;
    assert players[..i + 1][..i] == players[..i];
  }

  lemma FirstCovered(order: seq<Bytes>, names: set<Bytes>)
    requires forall n :: n in order ==> n in names
    ensures |order| > 0 ==> order[0] in names
  {
  }

  /** The iteration order after an erase. */
  function Erased(order: seq<Bytes>, name: Bytes): seq<Bytes>
  {
    if order == [] then []
    else
      var front := Erased(order[..|order| - 1], name);
      var last := order[|order| - 1];
      if last == name then front else front + [last]
  }

  lemma {:induction false} ErasedSorted(order: seq<Bytes>, name: Bytes)
    requires Sorted(order)
    ensures forall n :: n in Erased(order, name) <==> n in order && n != name
    ensures Sorted(Erased(order, name))
  {
    if order != [] {
      var front, last := order[..|order| - 1], order[|order| - 1];
      ErasedSorted(front, name);
      var shorter := Erased(front, name);
      forall i | 0 <= i < |shorter|
        ensures Less(shorter[i], last)
      {
        assert shorter[i] in shorter;
        var k :| 0 <= k < |front| && front[k] == shorter[i];
        assert Less(order[k], order[|order| - 1]);
      }
    }
  }
}
