/** The level list (get_level_list in src/client_manager.cpp): how many players are on which level. */
module Census {
  import opened Wire
  import opened Clients
  import opened Replies

  datatype LevelInfo = LevelInfo(name: Bytes, path: Bytes, players: nat)

  /** How many of the players are on the level with this path. */
  function CountOn(players: seq<Session>, path: Bytes): nat
  {
    if players == [] then 0
    else CountOn(players[..|players| - 1], path) + if players[|players| - 1].levelPath == path then 1 else 0
  }

  function Total(levels: seq<LevelInfo>): nat
  {
    if levels == [] then 0 else Total(levels[..|levels| - 1]) + levels[|levels| - 1].players
  }

  ghost predicate DistinctPaths(levels: seq<LevelInfo>)
  {
    forall i, j :: 0 <= i < j < |levels| ==> levels[i].path != levels[j].path
  }

  predicate Listed(levels: seq<LevelInfo>, path: Bytes)
  {
    exists i :: 0 <= i < |levels| && levels[i].path == path
  }

  /** Every count is the number of players on that path. */
  ghost predicate Counted(levels: seq<LevelInfo>, players: seq<Session>)
  {
    forall i :: 0 <= i < |levels| ==> levels[i].players == CountOn(players, levels[i].path)
  }

  /** The configured maps, as the comparison with data() sees them. */
  function Default(maps: seq<(Bytes, Bytes)>, i: nat, players: seq<Session>): LevelInfo
    requires i < |maps|
  {
    LevelInfo(CStr(maps[i].0), CStr(maps[i].1), CountOn(players, CStr(maps[i].1)))
  }

  /** The index of the first player on the path, or their number. */
  function FirstOn(players: seq<Session>, path: Bytes): (k: nat)
    ensures k <= |players| && forall j :: 0 <= j < k ==> players[j].levelPath != path
    ensures k < |players| ==> players[k].levelPath == path
  {
    if players == [] || players[0].levelPath == path then 0 else 1 + FirstOn(players[1..], path)
  }

  /** What the first player on a map that is not configured brought. */
  function Brought(players: seq<Session>, k: nat): LevelInfo
    requires k < |players|
  {
    LevelInfo(players[k].levelName, players[k].levelPath, CountOn(players, players[k].levelPath))
  }

  /** Some configured map has this path, as the comparison with data() sees it. */
  predicate Configured(maps: seq<(Bytes, Bytes)>, path: Bytes)
  {
    exists i :: 0 <= i < |maps| && CStr(maps[i].1) == path
  }

  /** The entries after n players have been looked at. */
  function LevelsUpTo(maps: seq<(Bytes, Bytes)>, players: seq<Session>, n: nat): seq<LevelInfo>
    requires n <= |players|
  {
    if n == 0 then seq(|maps|, i requires 0 <= i < |maps| => Default(maps, i, players))
    else
      var before := LevelsUpTo(maps, players, n - 1);
      var path := players[n - 1].levelPath;
      if Configured(maps, path) || Listed(before, path) then before else before + [Brought(players, n - 1)]
  }

  function LevelList(maps: seq<(Bytes, Bytes)>, players: seq<Session>): seq<LevelInfo>
  {
    LevelsUpTo(maps, players, |players|)
  }

  /** The level list, as far as the first n players determine it: first the configured maps, empty or
      not; then, in registry order of their first players, the maps players brought, under the name the
      first one gave. */
  ghost predicate CensusUpTo(maps: seq<(Bytes, Bytes)>, players: seq<Session>, levels: seq<LevelInfo>, n: nat)
    requires n <= |players|
  {
    && |maps| <= |levels|
    && (forall i :: 0 <= i < |maps| ==>
          levels[i] == LevelInfo(CStr(maps[i].0), CStr(maps[i].1), CountOn(players, CStr(maps[i].1))))
    && (forall i :: |maps| <= i < |levels| ==>
          var k, path := FirstOn(players, levels[i].path), levels[i].path;
          k < n && levels[i] == LevelInfo(players[k].levelName, path, CountOn(players, path)))
    && (forall i, j :: |maps| <= i < j < |levels| ==>
         FirstOn(players, levels[i].path) < FirstOn(players, levels[j].path))
    && (forall i, j :: 0 <= i < |maps| <= j < |levels| ==> levels[i].path != levels[j].path)
    && (forall k :: 0 <= k < n ==> Listed(levels, players[k].levelPath))
  }

  ghost predicate IsCensus(maps: seq<(Bytes, Bytes)>, players: seq<Session>, levels: seq<LevelInfo>)
  {
    CensusUpTo(maps, players, levels, |players|)
  }

  method CountPlayers(players: seq<Session>, path: Bytes) returns (count: nat)
    ensures count == CountOn(players, path)
  {
    count := 0;
    for i := 0 to |players|
      invariant count == CountOn(players[..i], path)
    {
      assert players[..i + 1][..i] == players[..i];
      if players[i].levelPath == path {
        count := count + 1;
      }
    }
    assert players[..|players|] == players;
  }

  method IsDefault(maps: seq<(Bytes, Bytes)>, path: Bytes) returns (found: bool)
    ensures found <==> Configured(maps, path)
  {
    hide CStr;
    found := false;
    for i := 0 to |maps|
      invariant !found && forall j :: 0 <= j < i ==> CStr(maps[j].1) != path
    {
      if path == CStr(maps[i].1) {
        found := true;
        break;
      }
    }
  }

  method IsAdded(levels: seq<LevelInfo>, path: Bytes) returns (found: bool)
    ensures found <==> Listed(levels, path)
  {
    found := false;
    for i := 0 to |levels|
      invariant !found && forall j :: 0 <= j < i ==> levels[j].path != path
    {
      if levels[i].path == path {
        found := true;
        break;
      }
    }
  }

  method GetLevels(maps: seq<(Bytes, Bytes)>, players: seq<Session>) returns (levels: seq<LevelInfo>)
    ensures levels == LevelList(maps, players) && IsCensus(maps, players, levels)
    ensures Counted(levels, players)
    ensures forall i :: |maps| <= i < |levels| ==> levels[i].players > 0
  {
    hide CStr;
    levels := [];
    for i := 0 to |maps|
      invariant |levels| == i && forall j :: 0 <= j < i ==> levels[j] == Default(maps, j, players)
    {
      var count := CountPlayers(players, CStr(maps[i].1));
      levels := levels + [LevelInfo(CStr(maps[i].0), CStr(maps[i].1), count)];
    }
    assert levels == LevelsUpTo(maps, players, 0);
    for k := 0 to |players|
      invariant levels == LevelsUpTo(maps, players, k)
    {
      hide Listed, CountOn;
      var path := players[k].levelPath;
      var isDefault := IsDefault(maps, path);
      if !isDefault {
        var alreadyAdded := IsAdded(levels, path);
        if !alreadyAdded {
          var count := CountPlayers(players, path);
          levels := levels + [LevelInfo(players[k].levelName, path, count)];
        }
      }
    }
    LevelsAreCensus(maps, players, |players|);
    CensusCounts(maps, players, levels);
  }

  /** The list that the two loops build is the census. */
  lemma {:induction false} LevelsAreCensus(maps: seq<(Bytes, Bytes)>, players: seq<Session>, n: nat)
    requires n <= |players|
    ensures CensusUpTo(maps, players, LevelsUpTo(maps, players, n), n)
  {
    hide CensusUpTo, Listed, CountOn, CStr;
    if n == 0 {
      NoPlayersYet(maps, players);
    } else {
      LevelsAreCensus(maps, players, n - 1);
      var before := LevelsUpTo(maps, players, n - 1);
      if Configured(maps, players[n - 1].levelPath) || Listed(before, players[n - 1].levelPath) {
        NoMoreMap(maps, players, before, n - 1);
      } else {
        OneMoreMap(maps, players, before, n - 1);
      }
    }
  }

  lemma NoPlayersYet(maps: seq<(Bytes, Bytes)>, players: seq<Session>)
    ensures CensusUpTo(maps, players, LevelsUpTo(maps, players, 0), 0)
  {
    hide CStr, CountOn;
  }

  /** A player on a configured map or on one that is listed already adds nothing. */
  lemma NoMoreMap(maps: seq<(Bytes, Bytes)>, players: seq<Session>, levels: seq<LevelInfo>, k: nat)
    requires k < |players| && CensusUpTo(maps, players, levels, k)
    requires Configured(maps, players[k].levelPath) || Listed(levels, players[k].levelPath)
    ensures CensusUpTo(maps, players, levels, k + 1)
  {
    hide CStr, CountOn;
    assert forall i :: 0 <= i < |maps| ==> levels[i].path == CStr(maps[i].1);
  }

  lemma OneMoreMap(maps: seq<(Bytes, Bytes)>, players: seq<Session>, levels: seq<LevelInfo>, k: nat)
    requires k < |players| && CensusUpTo(maps, players, levels, k)
    requires !Listed(levels, players[k].levelPath) && !Configured(maps, players[k].levelPath)
    ensures CensusUpTo(maps, players, levels + [Brought(players, k)], k + 1)
  {
    hide CountOn, CStr, FirstOn;
    FirstOnIs(players, k, levels);
    ListedAppendAll(levels, Brought(players, k));
    ListedNone(levels, players[k].levelPath);
    hide Listed;
  }

  lemma ListedNone(levels: seq<LevelInfo>, path: Bytes)
    ensures !Listed(levels, path) <==> forall i :: 0 <= i < |levels| ==> levels[i].path != path
  {
  }

  lemma ListedAppendAll(levels: seq<LevelInfo>, l: LevelInfo)
    ensures forall path :: Listed(levels + [l], path) <==> Listed(levels, path) || l.path == path
  {
    hide Listed;
    forall path
      ensures Listed(levels + [l], path) <==> Listed(levels, path) || l.path == path
    {
      ListedAppend(levels, l, path);
    }
  }

  lemma FirstOnIs(players: seq<Session>, k: nat, levels: seq<LevelInfo>)
    requires k < |players| && !Listed(levels, players[k].levelPath)
    requires forall j :: 0 <= j < k ==> Listed(levels, players[j].levelPath)
    ensures FirstOn(players, players[k].levelPath) == k
  {
    hide Listed;
    var f := FirstOn(players, players[k].levelPath);
    assert forall j :: 0 <= j < k ==> players[j].levelPath != players[k].levelPath;
    assert f >= k;
  }

  /** Every listed count is right, and every map that players brought has one of them on it. */
  lemma CensusCounts(maps: seq<(Bytes, Bytes)>, players: seq<Session>, levels: seq<LevelInfo>)
    requires IsCensus(maps, players, levels)
    ensures Counted(levels, players)
    ensures forall i :: |maps| <= i < |levels| ==> levels[i].players > 0
  {
    hide CStr, CountOn, Listed;
    forall i | |maps| <= i < |levels|
      ensures levels[i].players > 0
    {
      CountPositive(players, FirstOn(players, levels[i].path));
    }
  }

  lemma {:induction false} CountPositive(players: seq<Session>, k: nat)
    requires k < |players|
    ensures CountOn(players, players[k].levelPath) > 0
  {
    if k < |players| - 1 {
      CountPositive(players[..|players| - 1], k);
    }
  }

  /** A path that occurs once takes each of its players into the total once. */
  lemma {:induction false} TotalOfPaths(levels: seq<LevelInfo>, players: seq<Session>)
    requires Counted(levels, players) && DistinctPaths(levels)
    requires forall k :: 0 <= k < |players| ==> Listed(levels, players[k].levelPath)
    ensures Total(levels) == |players|
  {
    hide CountOn, OffPath, Listed;
    if levels == [] {
      if |players| > 0 {
        NoneListed(players[0].levelPath);
      }
    } else {
      var last := levels[|levels| - 1];
      var others := OffPath(players, last.path);
      OffPathCounts(players, last.path);
      var front := levels[..|levels| - 1];
      forall i | 0 <= i < |front|
        ensures front[i].players == CountOn(others, front[i].path)
      {
        OffPathCountOn(players, last.path, front[i].path);
      }
      forall k | 0 <= k < |others|
        ensures Listed(front, others[k].levelPath)
      {
        OffPathMember(players, last.path, k);
        var m :| 0 <= m < |players| && players[m] == others[k];
        ListedEarlier(levels, players[m].levelPath);
      }
      TotalOfPaths(front, others);
    }
  }

  lemma NoneListed(path: Bytes)
    ensures !Listed([], path)
  {
  }

  lemma ListedEarlier(levels: seq<LevelInfo>, path: Bytes)
    requires levels != [] && Listed(levels, path)
    ensures levels[|levels| - 1].path == path || Listed(levels[..|levels| - 1], path)
  {
    var i :| 0 <= i < |levels| && levels[i].path == path;
    if i < |levels| - 1 {
      assert levels[..|levels| - 1][i].path == path;
    }
  }

  function OffPath(players: seq<Session>, path: Bytes): seq<Session>
  {
    if players == [] then []
    else
      var front := OffPath(players[..|players| - 1], path);
      var last := players[|players| - 1];
      if last.levelPath == path then front else front + [last]
  }

  lemma {:induction false} OffPathCounts(players: seq<Session>, path: Bytes)
    ensures |OffPath(players, path)| + CountOn(players, path) == |players|
  {
    if players != [] {
      OffPathCounts(players[..|players| - 1], path);
    }
  }

  lemma {:induction false} OffPathCountOn(players: seq<Session>, path: Bytes, other: Bytes)
    requires path != other
    ensures CountOn(OffPath(players, path), other) == CountOn(players, other)
  {
    if players != [] {
      var front := players[..|players| - 1];
      OffPathCountOn(front, path, other);
      var rest := OffPath(front, path);
      var last := players[|players| - 1];
      assert (rest + [last])[..|rest|] == rest;
    }
  }

  lemma {:induction false} OffPathMember(players: seq<Session>, path: Bytes, k: nat)
    requires k < |OffPath(players, path)|
    ensures OffPath(players, path)[k].levelPath != path
    ensures exists m :: 0 <= m < |players| && players[m] == OffPath(players, path)[k]
  {
    var front := players[..|players| - 1];
    if k < |OffPath(front, path)| {
      OffPathMember(front, path, k);
      var m :| 0 <= m < |front| && front[m] == OffPath(front, path)[k];
      assert players[m] == OffPath(players, path)[k];
    } else {
      assert players[|players| - 1] == OffPath(players, path)[k];
    }
  }

  // ---------------------------------------------------------------- the partition theorem

  /** Entry i repeats the path of an earlier entry. */
  ghost predicate Repeats(levels: seq<LevelInfo>, i: nat)
    requires i < |levels|
  {
    Listed(levels[..i], levels[i].path)
  }

  /** The entries that do not repeat an earlier one. */
  ghost function Firsts(levels: seq<LevelInfo>): (fs: seq<LevelInfo>)
  {
    if levels == [] then []
    else
      var front, n := Firsts(levels[..|levels| - 1]), |levels| - 1;
      if Repeats(levels, n) then front else front + [levels[n]]
  }

  ghost function RepeatedTotal(levels: seq<LevelInfo>): nat
  {
    if levels == [] then 0
    else
      var n := |levels| - 1;
      RepeatedTotal(levels[..n]) + if Repeats(levels, n) then levels[n].players else 0
  }

  lemma ListedAppend(levels: seq<LevelInfo>, l: LevelInfo, path: Bytes)
    ensures Listed(levels + [l], path) <==> Listed(levels, path) || l.path == path
  {
    var longer := levels + [l];
    assert longer[|levels|] == l && longer[..|levels|] == levels;
    if Listed(levels, path) {
      var i :| 0 <= i < |levels| && levels[i].path == path;
      assert longer[i].path == path;
    }
    if Listed(longer, path) {
      ListedEarlier(longer, path);
    }
  }

  lemma {:induction false} FirstsListed(levels: seq<LevelInfo>, path: Bytes)
    ensures Listed(Firsts(levels), path) <==> Listed(levels, path)
  {
    hide Listed;
    if levels != [] {
      var n := |levels| - 1;
      FirstsListed(levels[..n], path);
      assert levels == levels[..n] + [levels[n]];
      ListedAppend(levels[..n], levels[n], path);
      ListedAppend(Firsts(levels[..n]), levels[n], path);
    }
  }

  lemma {:induction false} FirstsDistinct(levels: seq<LevelInfo>, players: seq<Session>)
    requires Counted(levels, players)
    ensures DistinctPaths(Firsts(levels)) && Counted(Firsts(levels), players)
    ensures Total(levels) == Total(Firsts(levels)) + RepeatedTotal(levels)
  {
    hide CountOn;
    if levels != [] {
      var n := |levels| - 1;
      var front := Firsts(levels[..n]);
      FirstsDistinct(levels[..n], players);
      FirstsListed(levels[..n], levels[n].path);
      assert (front + [levels[n]])[..|front|] == front;
      forall i | 0 <= i < |front| && !Repeats(levels, n)
        ensures front[i].path != levels[n].path
      {
        assert Listed(front, front[i].path);
      }
    }
  }

  lemma {:induction false} RepeatedTotalZero(levels: seq<LevelInfo>)
    ensures RepeatedTotal(levels) == 0 <==>
            forall i :: 0 <= i < |levels| && Repeats(levels, i) ==> levels[i].players == 0
  {
    hide Listed;
    if levels != [] {
      var n := |levels| - 1;
      RepeatedTotalZero(levels[..n]);
      forall i | 0 <= i < n
        ensures Repeats(levels[..n], i) <==> Repeats(levels, i)
      {
        assert levels[..n][..i] == levels[..i];
      }
      assert forall i :: 0 <= i < n ==> levels[..n][i] == levels[i];
      if RepeatedTotal(levels[..n]) == 0 && !(Repeats(levels, n) && levels[n].players > 0) {
        forall i | 0 <= i < |levels| && Repeats(levels, i)
          ensures levels[i].players == 0
        {
          if i < n {
            assert Repeats(levels[..n], i);
          }
        }
      }
    }
  }

  lemma {:induction false} TotalIff(levels: seq<LevelInfo>, players: seq<Session>)
    requires Counted(levels, players)
    requires forall k :: 0 <= k < |players| ==> Listed(levels, players[k].levelPath)
    ensures Total(levels) == |players| <==>
            forall i :: 0 <= i < |levels| && Repeats(levels, i) ==> levels[i].players == 0
  {
    hide Listed, Repeats, Total, Firsts, RepeatedTotal, CountOn;
    FirstsDistinct(levels, players);
    forall k | 0 <= k < |players|
      ensures Listed(Firsts(levels), players[k].levelPath)
    {
      FirstsListed(levels, players[k].levelPath);
    }
    TotalOfPaths(Firsts(levels), players);
    RepeatedTotalZero(levels);
  }

  /** Two configured maps have this path, as the comparison with data() sees them. */
  ghost predicate TwiceConfigured(maps: seq<(Bytes, Bytes)>, path: Bytes)
  {
    exists i, j :: 0 <= i < j < |maps| && CStr(maps[i].1) == path && CStr(maps[j].1) == path
  }

  /** The census is a partition of the players, that is, the counts add up to their number, if and
      only if no player is on a path that is configured twice. */
  lemma {:induction false} CensusPartition(maps: seq<(Bytes, Bytes)>, players: seq<Session>, levels: seq<LevelInfo>)
    requires IsCensus(maps, players, levels)
    ensures Total(levels) == |players| <==>
            forall k :: 0 <= k < |players| ==> !TwiceConfigured(maps, players[k].levelPath)
  {
    hide CStr, CountOn, Total, Repeats, TwiceConfigured, FirstOn;
    CensusCounts(maps, players, levels);
    TotalIff(levels, players);
    if k :| 0 <= k < |players| && TwiceConfigured(maps, players[k].levelPath) {
      RepeatedEntry(maps, players, levels, k);
    }
    if i :| 0 <= i < |levels| && Repeats(levels, i) && levels[i].players != 0 {
      RepeatedPlayer(maps, players, levels, i);
    }
  }

  lemma RepeatedEntry(maps: seq<(Bytes, Bytes)>, players: seq<Session>, levels: seq<LevelInfo>, k: nat)
    requires IsCensus(maps, players, levels) && k < |players| && TwiceConfigured(maps, players[k].levelPath)
    ensures exists i :: 0 <= i < |levels| && Repeats(levels, i) && levels[i].players != 0
  {
    hide CStr, CountOn, FirstOn;
    var i, j :| 0 <= i < j < |maps| && CStr(maps[i].1) == players[k].levelPath &&
      CStr(maps[j].1) == players[k].levelPath;
    CountPositive(players, k);
    assert levels[..j][i].path == levels[j].path;
    assert Repeats(levels, j);
  }

  lemma RepeatedPlayer(maps: seq<(Bytes, Bytes)>, players: seq<Session>, levels: seq<LevelInfo>, i: nat)
    requires IsCensus(maps, players, levels) && i < |levels| && Repeats(levels, i) && levels[i].players != 0
    ensures exists k :: 0 <= k < |players| && TwiceConfigured(maps, players[k].levelPath)
  {
    hide CStr, CountOn;
    var j :| 0 <= j < i && levels[..i][j].path == levels[i].path;
    assert levels[j].path == levels[i].path;
    CensusCounts(maps, players, levels);
    var k := CountWitness(players, levels[i].path);
    assert i < |maps|;
    assert CStr(maps[j].1) == players[k].levelPath && CStr(maps[i].1) == players[k].levelPath;
    assert TwiceConfigured(maps, players[k].levelPath);
  }

  lemma {:induction false} CountWitness(players: seq<Session>, path: Bytes) returns (k: nat)
    requires CountOn(players, path) > 0
    ensures k < |players| && players[k].levelPath == path
  {
    if players[|players| - 1].levelPath == path {
      k := |players| - 1;
    } else {
      k := CountWitness(players[..|players| - 1], path);
    }
  }

  /** The emitted list is the census of the maps and the players, entry after entry. */
  method GetLevelList(reply: Reply, maps: seq<(Bytes, Bytes)>, players: seq<Session>)
    returns (ghost levels: seq<LevelInfo>)
    modifies reply
    ensures levels == LevelList(maps, players) && reply.buffer == old(reply.buffer) + EncodeLevels(levels)
    ensures IsCensus(maps, players, levels) && Counted(levels, players)
    ensures Total(levels) == |players| <==>
            forall k :: 0 <= k < |players| ==> !TwiceConfigured(maps, players[k].levelPath)
    ensures (forall i, j :: 0 <= i < j < |maps| ==> CStr(maps[i].1) != CStr(maps[j].1)) ==> DistinctPaths(levels)
  {
    hide CStr, EncodeString, CountOn, Listed, Total, IsCensus, TwiceConfigured, Counted, DistinctPaths, ToChar;
    hide EncodeLevels, LevelList;
    var infos := GetLevels(maps, players);
    NothingToEncode();
    for i := 0 to |infos|
      invariant reply.buffer == old(reply.buffer) + EncodeLevels(infos[..i])
    {
      EncodeStep(infos, i);
      reply.AddString(infos[i].name);
      reply.AddString(infos[i].path);
      reply.AddInt(infos[i].players);
    }
    assert infos[..|infos|] == infos;
    levels := infos;
    CensusPartition(maps, players, levels);
    PathsDistinct(maps, players, levels);
  }

  lemma NothingToEncode()
    ensures EncodeLevels([]) == []
  {
  }

  lemma EncodeStep(levels: seq<LevelInfo>, i: nat)
    requires i < |levels|
    ensures EncodeLevels(levels[..i + 1]) == EncodeLevels(levels[..i]) +
              (EncodeString(levels[i].name) + EncodeString(levels[i].path) + [ToChar(levels[i].players)])
  {
    hide EncodeString, ToChar;
    assert levels[..i + 1][..i] == levels[..i];
  }

  /** No path is listed twice unless it is configured twice. */
  lemma PathsDistinct(maps: seq<(Bytes, Bytes)>, players: seq<Session>, levels: seq<LevelInfo>)
    requires IsCensus(maps, players, levels)
    ensures (forall i, j :: 0 <= i < j < |maps| ==> CStr(maps[i].1) != CStr(maps[j].1)) <==> DistinctPaths(levels)
  {
    hide CStr, CountOn, Listed, FirstOn;
    assert forall i :: 0 <= i < |maps| ==> levels[i].path == CStr(maps[i].1);
    if DistinctPaths(levels) {
      forall i, j | 0 <= i < j < |maps|
        ensures CStr(maps[i].1) != CStr(maps[j].1)
      {
        assert levels[i].path != levels[j].path;
      }
    }
  }

  function EncodeLevels(levels: seq<LevelInfo>): Bytes
  {
    if levels == [] then []
    else
      var last := levels[|levels| - 1];
      EncodeLevels(levels[..|levels| - 1]) + (EncodeString(last.name) + EncodeString(last.path) +
        [ToChar(last.players)])
  }
}
