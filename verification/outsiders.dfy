/** Clients that are not registered are served like players. */
module Outsiders {
  import opened Wire
  import opened History
  import opened Clients
  import opened Server
  import opened Registry
  import Health

  /** The peer loop looks at its peers only. */
  lemma {:induction false} SyncAgrees(a: map<Bytes, Session>, b: map<Bytes, Session>, names: seq<Bytes>,
                                      keys: map<Bytes, int>)
    requires forall n :: n in names ==> n in a && n in b && a[n] == b[n]
    ensures Sync(a, names, keys) == Sync(b, names, keys)
  {
    hide SyncOne;
    if names != [] {
      SyncAgrees(a, b, names[..|names| - 1], keys);
    }
  }

  /** Up to the peer loop nobody else can tell whether the client is registered. */
  lemma SettledAgrees(st: State, c: Session, p: Packet, now: int)
    requires c.username !in st.clients
    ensures var inside, outside := Settled(st.clients[c.username := c], c.username, p, now),
                                   SettledOutside(st.clients, c, p, now);
            && inside.Keys == st.clients.Keys + {c.username} && outside.Keys == st.clients.Keys
            && inside[c.username] == Refreshed(c, p, now).0
            && (forall n :: n in st.clients ==> inside[n] == outside[n] && SameButInbox(st.clients[n], outside[n]))
  {
    hide Refreshed, FateAt, DiedNotice, SameButInbox, Settled;
    SettledEffect(st.clients[c.username := c], c.username, p, now);
    Health.SettledMail(st.clients[c.username := c], c.username, p, now);
    OverheardEffect(st.clients, c, DiedNotice(c));
    SameSelf();
  }

  lemma SameSelf()
    ensures forall c :: SameButInbox(c, c)
  {
  }

  lemma PeersAgree(st: State, c: Session, p: Packet, now: int)
    requires WellFormed(st) && c.username !in st.clients
    ensures var joined := Registered(st, c);
            var inside, outside := Settled(joined.clients, c.username, p, now), SettledOutside(st.clients, c, p, now);
            && OrderCovered(joined) && c.username in inside && inside.Keys == joined.clients.Keys
            && outside.Keys == st.clients.Keys
            && Peers(inside, joined.order, c.username) == PeersOf(outside, st.order, Refreshed(c, p, now).0)
  {
    hide Less, Sorted, Entered, InsertKey, Settled, SettledOutside, Refreshed, SameLevel, SameButInbox;
    var joined, me := Registered(st, c), Refreshed(c, p, now).0;
    var inside, outside := Settled(joined.clients, c.username, p, now), SettledOutside(st.clients, c, p, now);
    InsertKeyMembers(st.order, c.username);
    InsertKeySorted(st.order, c.username);
    SettledAgrees(st, c, p, now);
    RefreshedIdentity(c, p, now);
    SameName(c, me);
    forall n | n in inside
      ensures inside[n].username == n
    {
      if n != c.username {
        EnteredName(st.clients[n], outside[n], n);
      }
    }
    PeersOfRegistered(inside, joined.order, c.username);
    PeersSorted(inside, joined.order, me);
    PeersSorted(outside, st.order, me);
    var a, b := Peers(inside, joined.order, c.username), PeersOf(outside, st.order, me);
    forall n: Bytes
      ensures n in a <==> n in b
    {
      assert n in joined.order <==> n in st.order || n == c.username;
    }
    SortedUnique(a, b);
  }

  lemma EnteredName(c: Session, d: Session, n: Bytes)
    requires Entered(c, n) && SameButInbox(c, d)
    ensures d.username == n
  {
  }

  lemma SameName(c: Session, d: Session)
    requires SameIdentity(c, d)
    ensures d.username == c.username
  {
  }

  /** An update of a client that is not registered, under a name that nobody has, is answered exactly as if it were,
      and has the same effect on everybody else and on the client itself. */
  lemma {:induction false} ServedLikePlayers(st: State, c: Session, p: Packet, now: int)
    requires WellFormed(st) && c.username !in st.clients
    ensures var joined := Registered(st, c);
            && OrderCovered(joined) && c.username in joined.clients
            && var inside, outside := Update(joined, c.username, p, now), UpdateOutside(st, c, p, now);
               && inside.out == outside.out
               && inside.st.clients == outside.st.clients[c.username := outside.c]
  {
    hide Less, Sorted, Entered, InsertKey, Settled, SettledOutside, Refreshed, Sync, Peers, PeersOf, SameButInbox;
    var joined, me := Registered(st, c), Refreshed(c, p, now).0;
    var inside, outside := Settled(joined.clients, c.username, p, now), SettledOutside(st.clients, c, p, now);
    PeersAgree(st, c, p, now);
    SettledAgrees(st, c, p, now);
    SyncAgrees(inside, outside, PeersOf(outside, st.order, me), me.keys);
  }

  /** And so is a chat line: the level gets it, and the client that sent it. */
  lemma {:induction false} HeardLikePlayers(st: State, c: Session, p: Packet)
    requires c.username !in st.clients
    ensures var inside, outside := Chat(Registered(st, c), c.username, p), ChatOutside(st, c, p);
            inside.clients == outside.st.clients[c.username := outside.c] && outside.out == []
  {
    hide ChatMessage, ReadString, AfterString, InsertKey;
  }
}
