/** What a game client reads from the answers to its queries: the level list, the player list, the server's
    description and the saved position. */
module Queries {
  import opened Wire
  import opened Clients
  import opened Server
  import opened Registry
  import opened Replication
  import opened Messages
  import opened Census

  // ---------------------------------------------------------------- the level list

  datatype Listing = Listing(name: Bytes, path: Bytes, players: Byte)

  /** Two strings and a char, again and again, from index i to the end of the message. */
  function ReadLevels(p: Packet, i: nat): seq<Listing>
    decreases |p.bytes| - i
  {
    if i >= |p.bytes| then []
    else
      var j := AfterString(p, i);
      var k := AfterString(p, j);
      [Listing(ReadString(p, i), ReadString(p, j), p.At(k))] + ReadLevels(p, k + 1)
  }

  /** How many registered players are on the path. */
  function Headcount(st: State, path: Bytes): nat
  {
    |set n | n in st.clients && st.clients[n].levelPath == path|
  }

  ghost predicate Increasing(ks: seq<nat>)
  {
    forall i, j :: 0 <= i < j < |ks| ==> ks[i] < ks[j]
  }

  /** Player k is the first on a path that is not configured. */
  predicate Pioneer(maps: seq<(Bytes, Bytes)>, players: seq<Session>, k: nat)
    requires k < |players|
  {
    !Configured(maps, players[k].levelPath) && forall j :: 0 <= j < k ==> players[j].levelPath != players[k].levelPath
  }

  /** The first players on the paths that are not configured, in registry order. */
  function Pioneers(maps: seq<(Bytes, Bytes)>, players: seq<Session>, n: nat): (ks: seq<nat>)
    requires n <= |players|
    ensures forall i :: 0 <= i < |ks| ==> ks[i] < n
  {
    if n == 0 then []
    else
      var ks := Pioneers(maps, players, n - 1);
      if Pioneer(maps, players, n - 1) then ks + [n - 1] else ks
  }

  /** Exactly the pioneers, in increasing order. */
  lemma {:induction false} PioneersAre(maps: seq<(Bytes, Bytes)>, players: seq<Session>, n: nat)
    requires n <= |players|
    ensures var ks := Pioneers(maps, players, n);
            && (forall k :: k in ks <==> 0 <= k < n && Pioneer(maps, players, k))
            && Increasing(ks)
  {
    hide Pioneer;
    if n > 0 {
      PioneersAre(maps, players, n - 1);
      var ks := Pioneers(maps, players, n - 1);
      assert forall k :: k in ks + [n - 1] <==> k in ks || k == n - 1;
    }
  }

  /** The entries of the configured maps, and those of the paths that players brought. */
  function Offered(maps: seq<(Bytes, Bytes)>, st: State): (ls: seq<Listing>)
    ensures |ls| == |maps|
  {
    seq(|maps|, i requires 0 <= i < |maps| =>
      Listing(CStr(maps[i].0), CStr(maps[i].1), ToChar(Headcount(st, CStr(maps[i].1)))))
  }

  function Explored(st: State, pioneers: seq<Session>): (ls: seq<Listing>)
    ensures |ls| == |pioneers|
  {
    seq(|pioneers|, i requires 0 <= i < |pioneers| =>
      var c := pioneers[i];
      Listing(CStr(c.levelName), CStr(c.levelPath), ToChar(Headcount(st, c.levelPath))))
  }

  function Picked(players: seq<Session>, ks: seq<nat>): (cs: seq<Session>)
    requires forall i :: 0 <= i < |ks| ==> ks[i] < |players|
    ensures |cs| == |ks|
  {
    seq(|ks|, i requires 0 <= i < |ks| => players[ks[i]])
  }

  // ---------------------------------------------------------------- reading the level list back

  function Listings(levels: seq<LevelInfo>): (ls: seq<Listing>)
    ensures |ls| == |levels|
  {
    seq(|levels|, i requires 0 <= i < |levels| =>
      Listing(CStr(levels[i].name), CStr(levels[i].path), ToChar(levels[i].players)))
  }

  predicate Brief(l: LevelInfo)
  {
    StrLen(l.name) <= 127 && StrLen(l.path) <= 127
  }

  lemma {:induction false} EncodeLevelsCons(l: LevelInfo, levels: seq<LevelInfo>)
    ensures EncodeLevels([l] + levels) ==
            EncodeString(l.name) + (EncodeString(l.path) + ([ToChar(l.players)] + EncodeLevels(levels)))
  {
    hide EncodeString, ToChar;
    if levels == [] {
      assert [l] + levels == [l];
      EncodeLevelsOne(l);
    } else {
      var front, last := levels[..|levels| - 1], levels[|levels| - 1];
      assert ([l] + levels)[..|levels|] == [l] + front;
      EncodeLevelsCons(l, front);
      AppendedInside(EncodeString(l.name), EncodeString(l.path), [ToChar(l.players)], EncodeLevels(front),
                     EncodeString(last.name) + EncodeString(last.path) + [ToChar(last.players)]);
    }
  }

  lemma AppendedInside(a: Bytes, b: Bytes, c: Bytes, d: Bytes, e: Bytes)
    ensures (a + (b + (c + d))) + e == a + (b + (c + (d + e)))
  {
  }

  lemma EncodeLevelsOne(l: LevelInfo)
    ensures EncodeLevels([l]) == EncodeString(l.name) + (EncodeString(l.path) + [ToChar(l.players)])
    ensures EncodeLevels([]) == []
  {
    hide EncodeString, ToChar;
    assert [l][..0] == [];
  }

  /** Entries come back, their strings up to the first NUL, if and only if no string is longer than 127 then. */
  lemma {:induction false} LevelsReadBack(p: Packet, i: nat, levels: seq<LevelInfo>)
    requires i <= |p.bytes| && p.bytes[i..] == EncodeLevels(levels)
    ensures ReadLevels(p, i) == Listings(levels) <==> forall l :: l in levels ==> Brief(l)
    decreases |levels|
  {
    hide EncodeString, StrLen, CStr, ReadString, AfterString, ToChar, EncodeLevels, Brief, Listings, ReadLevels;
    if levels == [] {
      EncodeLevelsNone();
      NothingListed(p, i);
    } else {
      var l, rest := levels[0], levels[1..];
      assert levels == [l] + rest;
      EncodeLevelsCons(l, rest);
      var tail := EncodeLevels(rest);
      HeadListing(p, i, l, tail);
      ReadLevelsStep(p, i);
      ListingsCons(l, rest);
      if Brief(l) {
        LevelsReadBack(p, AfterString(p, AfterString(p, i)) + 1, rest);
      }
    }
  }

  lemma NothingListed(p: Packet, i: nat)
    ensures i >= |p.bytes| ==> ReadLevels(p, i) == []
    ensures Listings([]) == []
  {
  }

  lemma ReadLevelsStep(p: Packet, i: nat)
    requires i < |p.bytes|
    ensures var j := AfterString(p, i);
            var k := AfterString(p, j);
            var read, others := ReadLevels(p, i), ReadLevels(p, k + 1);
            && |read| == 1 + |others| && read[1..] == others
            && read[0] == Listing(ReadString(p, i), ReadString(p, j), p.At(k))
  {
    hide ReadString, AfterString;
  }

  lemma ListingsCons(l: LevelInfo, levels: seq<LevelInfo>)
    ensures var all, others := Listings([l] + levels), Listings(levels);
            && |all| == 1 + |others| && all[1..] == others
            && all[0] == Listing(CStr(l.name), CStr(l.path), ToChar(l.players))
            && forall ls: seq<Listing> :: |ls| > 0 ==> (ls == all <==> ls[0] == all[0] && ls[1..] == others)
  {
    hide CStr, ToChar;
    var all := Listings([l] + levels);
    forall ls: seq<Listing> | |ls| > 0 && ls[0] == all[0] && ls[1..] == all[1..]
      ensures ls == all
    {
      assert ls == [ls[0]] + ls[1..] && all == [all[0]] + all[1..];
    }
  }

  lemma EncodeLevelsNone()
    ensures EncodeLevels([]) == []
  {
  }

  /** The first entry is read right exactly if its strings are short, and then the cursor is behind it. */
  lemma HeadListing(p: Packet, i: nat, l: LevelInfo, tail: Bytes)
    requires i <= |p.bytes|
    requires p.bytes[i..] == EncodeString(l.name) + (EncodeString(l.path) + ([ToChar(l.players)] + tail))
    ensures i < |p.bytes|
    ensures var j := AfterString(p, i);
            var k := AfterString(p, j);
            && (ReadString(p, i) == CStr(l.name) && ReadString(p, j) == CStr(l.path) <==> Brief(l))
            && (Brief(l) ==> k < |p.bytes| && p.At(k) == ToChar(l.players) && p.bytes[k + 1..] == tail)
  {
    hide EncodeString, StrLen, CStr, ReadString, AfterString, ToChar;
    var three := [ToChar(l.players)] + tail;
    StringFieldIff(p, i, l.name, EncodeString(l.path) + three);
    if StrLen(l.name) <= 127 {
      var j := AfterString(p, i);
      StringFieldIff(p, j, l.path, three);
      if StrLen(l.path) <= 127 {
        var k := AfterString(p, j);
        assert |p.bytes[k..]| > 0;
        assert p.bytes[k] == p.bytes[k..][0];
        assert p.bytes[k + 1..] == p.bytes[k..][1..];
      }
    }
  }

  // ---------------------------------------------------------------- what the list says

  /** An entry is added for exactly the pioneers. */
  lemma AddedIff(maps: seq<(Bytes, Bytes)>, players: seq<Session>, n: nat)
    requires 0 < n <= |players|
    ensures var path := players[n - 1].levelPath;
            Configured(maps, path) || Listed(LevelsUpTo(maps, players, n - 1), path) <==> !Pioneer(maps, players, n - 1)
  {
    hide CountOn, CStr;
    var path := players[n - 1].levelPath;
    var before := LevelsUpTo(maps, players, n - 1);
    LevelsAreCensus(maps, players, n - 1);
    if !Configured(maps, path) {
      if i :| 0 <= i < |before| && before[i].path == path {
        assert i >= |maps|;
        assert FirstOn(players, path) < n - 1;
      }
      if j :| 0 <= j < n - 1 && players[j].levelPath == path {
        assert Listed(before, players[j].levelPath);
      }
    }
  }

  /** The list is one entry for each configured map, and one for each pioneer. */
  lemma {:induction false} LevelsAre(maps: seq<(Bytes, Bytes)>, players: seq<Session>, n: nat)
    requires n <= |players|
    ensures var levels, ks := LevelsUpTo(maps, players, n), Pioneers(maps, players, n);
            && |levels| == |maps| + |ks|
            && (forall i :: 0 <= i < |maps| ==> levels[i] == Default(maps, i, players))
            && (forall i :: |maps| <= i < |levels| ==> levels[i] == Brought(players, ks[i - |maps|]))
  {
    hide Default, Brought, Pioneer, Listed, Configured;
    if n > 0 {
      LevelsAre(maps, players, n - 1);
      AddedIff(maps, players, n);
    }
  }

  ghost function On(clients: map<Bytes, Session>, names: seq<Bytes>, path: Bytes): set<Bytes>
    requires forall n :: n in names ==> n in clients
  {
    set n | n in names && clients[n].levelPath == path
  }

  lemma {:induction false} CountIs(clients: map<Bytes, Session>, names: seq<Bytes>, path: Bytes)
    requires Distinct(names) && forall n :: n in names ==> n in clients
    ensures CountOn(InOrder(clients, names), path) == |On(clients, names, path)|
  {
    hide On;
    if names == [] {
      NobodyOn(clients, path);
    } else {
      var front, last := names[..|names| - 1], names[|names| - 1];
      CountIs(clients, front, path);
      assert names == front + [last];
      assert last !in front;
      OneMoreOn(clients, front, last, path);
      var players := InOrder(clients, names);
      assert players[..|players| - 1] == InOrder(clients, front);
    }
  }

  lemma NobodyOn(clients: map<Bytes, Session>, path: Bytes)
    ensures On(clients, [], path) == {}
  {
  }

  lemma OneMoreOn(clients: map<Bytes, Session>, front: seq<Bytes>, last: Bytes, path: Bytes)
    requires last !in front && last in clients && forall n :: n in front ==> n in clients
    ensures |On(clients, front + [last], path)| ==
            |On(clients, front, path)| + if clients[last].levelPath == path then 1 else 0
  {
    assert On(clients, front + [last], path) ==
           On(clients, front, path) + if clients[last].levelPath == path then {last} else {};
  }

  lemma HeadcountIs(st: State, path: Bytes)
    requires OrderCovered(st) && Sorted(st.order)
    ensures CountOn(InOrder(st.clients, st.order), path) == Headcount(st, path)
  {
    SortedDistinct(st.order);
    hide Sorted, CountOn;
    CountIs(st.clients, st.order, path);
    assert On(st.clients, st.order, path) == set n | n in st.clients && st.clients[n].levelPath == path;
  }

  lemma CStrTwice(s: Bytes)
    ensures CStr(CStr(s)) == CStr(s) && StrLen(CStr(s)) == StrLen(s)
  {
    StrLenUnique(CStr(s), StrLen(s));
  }

  /** All the strings of the list are short. */
  predicate AllShort(maps: seq<(Bytes, Bytes)>, pioneers: seq<Session>)
  {
    && (forall i :: 0 <= i < |maps| ==> StrLen(maps[i].0) <= 127 && StrLen(maps[i].1) <= 127)
    && (forall i :: 0 <= i < |pioneers| ==>
         StrLen(pioneers[i].levelName) <= 127 && StrLen(pioneers[i].levelPath) <= 127)
  }

  lemma ListingsAre(maps: seq<(Bytes, Bytes)>, st: State)
    requires OrderCovered(st) && Sorted(st.order)
    ensures var players := InOrder(st.clients, st.order);
            Listings(LevelList(maps, players)) ==
            Offered(maps, st) + Explored(st, Picked(players, Pioneers(maps, players, |players|)))
  {
    hide Sorted, CountOn, CStr, ToChar, Headcount, Pioneers, LevelsUpTo;
    var players := InOrder(st.clients, st.order);
    var ks := Pioneers(maps, players, |players|);
    var levels, pioneers := LevelList(maps, players), Picked(players, ks);
    LevelsAre(maps, players, |players|);
    var expected := Offered(maps, st) + Explored(st, pioneers);
    forall i | 0 <= i < |levels|
      ensures Listings(levels)[i] == expected[i]
    {
      if i < |maps| {
        HeadcountIs(st, CStr(maps[i].1));
        CStrTwice(maps[i].0);
        CStrTwice(maps[i].1);
      } else {
        HeadcountIs(st, players[ks[i - |maps|]].levelPath);
        assert expected[i] == Explored(st, pioneers)[i - |maps|];
      }
    }
  }

  lemma ShortIff(maps: seq<(Bytes, Bytes)>, players: seq<Session>)
    ensures var pioneers := Picked(players, Pioneers(maps, players, |players|));
            AllShort(maps, pioneers) <==> forall l :: l in LevelList(maps, players) ==> Brief(l)
  {
    hide CountOn, StrLen, CStr, Pioneers, LevelsUpTo;
    var ks := Pioneers(maps, players, |players|);
    var levels, pioneers := LevelList(maps, players), Picked(players, ks);
    LevelsAre(maps, players, |players|);
    forall i | 0 <= i < |maps|
      ensures Brief(levels[i]) <==> StrLen(maps[i].0) <= 127 && StrLen(maps[i].1) <= 127
    {
      CStrTwice(maps[i].0);
      CStrTwice(maps[i].1);
    }
    forall i | 0 <= i < |ks|
      ensures Brief(levels[|maps| + i]) <==>
              StrLen(pioneers[i].levelName) <= 127 && StrLen(pioneers[i].levelPath) <= 127
    {
      assert levels[|maps| + i] == Brought(players, ks[i]);
    }
    hide Brief, AllShort;
    BriefByIndex(levels);
    AllShortIff(maps, pioneers, levels);
  }

  lemma AllShortIff(maps: seq<(Bytes, Bytes)>, pioneers: seq<Session>, levels: seq<LevelInfo>)
    requires |levels| == |maps| + |pioneers|
    requires forall i :: 0 <= i < |maps| ==>
               (Brief(levels[i]) <==> StrLen(maps[i].0) <= 127 && StrLen(maps[i].1) <= 127)
    requires forall i :: 0 <= i < |pioneers| ==>
               (Brief(levels[|maps| + i]) <==>
                StrLen(pioneers[i].levelName) <= 127 && StrLen(pioneers[i].levelPath) <= 127)
    ensures AllShort(maps, pioneers) <==> forall i :: 0 <= i < |levels| ==> Brief(levels[i])
  {
    hide Brief, StrLen;
    if AllShort(maps, pioneers) {
      forall i | 0 <= i < |levels|
        ensures Brief(levels[i])
      {
        if i >= |maps| {
          var j := i - |maps|;
          assert StrLen(pioneers[j].levelName) <= 127 && StrLen(pioneers[j].levelPath) <= 127;
        }
      }
    }
  }

  lemma BriefByIndex(levels: seq<LevelInfo>)
    ensures (forall l :: l in levels ==> Brief(l)) <==> forall i :: 0 <= i < |levels| ==> Brief(levels[i])
  {
    hide Brief;
  }

  /** The message is a level list (type 12), and is read as an entry for each configured map, in order, with its
      name, its path and the number of players on it, and then one for each other path in use, in registry order,
      with the level name of the first player on it; if and only if none of these strings is longer than 127. */
  ghost predicate ListsLevels(m: Bytes, cfg: Config, st: State)
    requires OrderCovered(st)
  {
    var players := InOrder(st.clients, st.order);
    var pioneers := Picked(players, Pioneers(cfg.maps, players, |players|));
    && Whole(m).At(0) == 12
    && (ReadLevels(Whole(m), 1) == Offered(cfg.maps, st) + Explored(st, pioneers) <==> AllShort(cfg.maps, pioneers))
  }

  lemma {:induction false} LevelListReadsBack(cfg: Config, st: State)
    requires OrderCovered(st) && Sorted(st.order)
    ensures ListsLevels(LevelsMessage(cfg, st), cfg, st)
  {
    hide Sorted, InOrder, LevelList, EncodeLevels, Listings, Offered, Explored, AllShort, Brief, Pioneers,
      Picked, ReadLevels;
    var m, players := LevelsMessage(cfg, st), InOrder(st.clients, st.order);
    ListingsAre(cfg.maps, st);
    ShortIff(cfg.maps, players);
    assert m[1..] == EncodeLevels(LevelList(cfg.maps, players));
    LevelsReadBack(Whole(m), 1, LevelList(cfg.maps, players));
  }

  // ---------------------------------------------------------------- the player list

  /** The players on a path, in registry order. */
  function Mates(players: seq<Session>, path: Bytes, n: nat): (ks: seq<nat>)
    requires n <= |players|
    ensures forall i :: 0 <= i < |ks| ==> ks[i] < n
  {
    if n == 0 then []
    else
      var ks := Mates(players, path, n - 1);
      if players[n - 1].levelPath == path then ks + [n - 1] else ks
  }

  /** Exactly those on the path, in increasing order. */
  lemma {:induction false} MatesAre(players: seq<Session>, path: Bytes, n: nat)
    requires n <= |players|
    ensures var ks := Mates(players, path, n);
            && (forall k :: k in ks <==> 0 <= k < n && players[k].levelPath == path)
            && Increasing(ks)
  {
    if n > 0 {
      MatesAre(players, path, n - 1);
      var ks := Mates(players, path, n - 1);
      assert forall k :: k in ks + [n - 1] <==> k in ks || k == n - 1;
    }
  }

  /** The username and the character of each. */
  function Cards(cs: seq<Session>): (ss: seq<Bytes>)
    ensures |ss| == 2 * |cs|
  {
    if cs == [] then []
    else Cards(cs[..|cs| - 1]) + [cs[|cs| - 1].username, cs[|cs| - 1].character]
  }

  lemma {:induction false} StringsConcat(a: seq<Bytes>, b: seq<Bytes>)
    ensures Strings(a + b) == Strings(a) + Strings(b)
  {
    hide EncodeString, Strings;
    if a == [] {
      assert a + b == b;
      StringsCons([], []);
    } else {
      StringsConcat(a[1..], b);
      assert a + b == [a[0]] + (a[1..] + b) && a == [a[0]] + a[1..];
      StringsCons(a[0], a[1..] + b);
      StringsCons(a[0], a[1..]);
    }
  }

  lemma {:induction false} EntriesAreStrings(players: seq<Session>, path: Bytes, n: nat)
    requires n <= |players|
    ensures PlayerEntries(players[..n], path) == Strings(Cards(Picked(players, Mates(players, path, n))))
  {
    hide EncodeString, Strings, Cards;
    NoCards();
    if n > 0 {
      EntriesAreStrings(players, path, n - 1);
      assert players[..n][..n - 1] == players[..n - 1];
      var before := Picked(players, Mates(players, path, n - 1));
      var c := players[n - 1];
      if c.levelPath == path {
        assert Picked(players, Mates(players, path, n)) == before + [c];
        CardsCons(before, c);
      }
    }
  }

  lemma NoCards()
    ensures Strings(Cards([])) == []
  {
  }

  lemma CardsCons(cs: seq<Session>, c: Session)
    ensures Strings(Cards(cs + [c])) ==
            Strings(Cards(cs)) + (EncodeString(c.username) + EncodeString(c.character))
  {
    hide EncodeString, Strings;
    assert (cs + [c])[..|cs|] == cs;
    TwoStrings(c.username, c.character);
    StringsConcat(Cards(cs), [c.username, c.character]);
  }

  /** The player list (type 13) is read as the names and characters of everybody on the asking client's level, in
      registry order, to its end, if and only if none of these is longer than 127; without a client it is empty. */
  lemma {:induction false} PlayerListReadsBack(st: State, c: Option<Session>)
    requires OrderCovered(st)
    ensures var m, players := PlayersMessage(st, c), InOrder(st.clients, st.order);
            && Whole(m).At(0) == 13
            && if c.None? then |m| == 1
               else
                 var ss := Cards(Picked(players, Mates(players, c.value.levelPath, |players|)));
                 && (ReadStrings(Whole(m), 1, |ss|) == Shown(ss) <==> Short(ss))
                 && (Short(ss) ==> AfterStrings(Whole(m), 1, |ss|) == |m|)
  {
    if c.Some? {
      hide InOrder, PlayerEntries, Strings, Cards, Mates, Picked, Shown, Short, ReadStrings, AfterStrings;
      var m, players := PlayersMessage(st, c), InOrder(st.clients, st.order);
      var ss := Cards(Picked(players, Mates(players, c.value.levelPath, |players|)));
      EntriesAreStrings(players, c.value.levelPath, |players|);
      assert players[..|players|] == players;
      assert m[1..] == Strings(ss) + [];
      StringsReadBack(Whole(m), 1, ss, []);
    }
  }

  // ---------------------------------------------------------------- the server's description

  lemma {:induction false} OrderCounts(clients: map<Bytes, Session>, order: seq<Bytes>)
    requires Distinct(order)
    ensures |set n | n in order| == |order|
  {
    if order != [] {
      var front, last := order[..|order| - 1], order[|order| - 1];
      OrderCounts(clients, front);
      assert last !in front && order == front + [last];
      assert (set n | n in order) == (set n | n in front) + {last};
    }
  }

  /** The description (type 11) carries the server's name, up to its first NUL, if that has at most 127 characters,
      and at its end the number of registered players as a char. */
  lemma {:induction false} InfoReadsBack(cfg: Config, st: State)
    requires OrderCovered(st) && Sorted(st.order)
    ensures var m := InfoMessage(cfg, st);
            && Whole(m).At(0) == 11
            && (ReadString(Whole(m), 1) == CStr(cfg.serverName) <==> StrLen(cfg.serverName) <= 127)
            && |m| == 3 + StrLen(cfg.serverName) && Whole(m).At(|m| - 1) == ToChar(|st.clients|)
  {
    SortedDistinct(st.order);
    OrderCounts(st.clients, st.order);
    hide Sorted;
    assert (set n | n in st.order) == st.clients.Keys;
    var m, e := InfoMessage(cfg, st), EncodeString(cfg.serverName);
    hide EncodeString, StrLen, CStr, ReadString, ToChar;
    assert m[1..1 + |e|] == e;
    ReadStringOfEncodeString(Whole(m), 1, cfg.serverName);
  }

  // ---------------------------------------------------------------- which answer

  /** What a request is answered by its first byte: 8 with the saved position if teleporting is allowed, 11, 12 and
      13 with the description and the two lists, 0, 1, 5, 6 and 7 with nothing, and anything else with a text. */
  lemma {:induction false} AnswerByKind(cfg: Config, st: State, c: Option<Session>, kind: Byte)
    requires OrderCovered(st)
    ensures var out := Answers(cfg, st, c, kind);
            if kind == 8 then out == if cfg.allowTeleport && c.Some? then [LoadMessage(c.value)] else []
            else if kind == 11 then out == [InfoMessage(cfg, st)]
            else if kind == 12 then out == [LevelsMessage(cfg, st)]
            else if kind == 13 then out == [PlayersMessage(st, c)]
            else if kind in {0, 1, 5, 6, 7} then out == []
            else |out| == 1 && Spells(out[0], "Go away!")
  {
    hide LoadMessage, InfoMessage, LevelsMessage, PlayersMessage;
  }
}
