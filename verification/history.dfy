/** The bounded, wrapping update history of a client and the catch-up query on it
    (src/client.cpp), against the full history it abbreviates. */
module History {
  import opened Wire

  /** One stored update: its key and the variable types it touched. */
  datatype Entry = Entry(key: int, types: seq<Byte>)

  const MAX_HISTORY := 10

  /** Keys run over 0..MAX_HISTORY. */
  const KEYS := MAX_HISTORY + 1

  // ---------------------------------------------------------------- what the code computes

  /** add_history on the stored list. */
  function Pushed(h: seq<Entry>, index: int, types: seq<Byte>): seq<Entry>
  {
    var longer := [Entry(index, types)] + h;
    if |longer| > MAX_HISTORY then longer[..|longer| - 1] else longer
  }

  function NextKey(index: int): int
  {
    if index + 1 > MAX_HISTORY then 0 else index + 1
  }

  /** The first-occurrence order list of the elements of s, without repetitions. */
  function Dedup(s: seq<Byte>): (d: seq<Byte>)
  {
    if s == [] then []
    else
      var d := Dedup(s[..|s| - 1]);
      var x := s[|s| - 1];
      if x in d then d else d + [x]
  }

  /** Index of the first entry with the key, or |h|. */
  function FindKey(h: seq<Entry>, key: int): (i: nat)
    ensures i <= |h|
    ensures forall j :: 0 <= j < i ==> h[j].key != key
    ensures i < |h| ==> h[i].key == key
  {
    if h == [] || h[0].key == key then 0 else 1 + FindKey(h[1..], key)
  }

  /** The types of the i newest entries, oldest entry first. */
  function TypesOfNewest(h: seq<Entry>, i: nat): seq<Byte>
    requires i <= |h|
  {
    if i == 0 then [] else h[i - 1].types + TypesOfNewest(h, i - 1)
  }

  /** get_missing_update_variable_types on an arbitrary stored list. */
  function Missing(h: seq<Entry>, key: int): seq<Byte>
  {
    var i := FindKey(h, key);
    if i == |h| || h[i] == h[0] then [] else Dedup(TypesOfNewest(h, i))
  }

  /** get_last_update_key. */
  function LastKey(h: seq<Entry>): int
  {
    if |h| < 1 then -1 else h[0].key
  }

  // ---------------------------------------------------------------- the full history

  /** The variable types of a list of updates, oldest first. */
  function Flatten(us: seq<seq<Byte>>): seq<Byte>
  {
    if us == [] then [] else us[0] + Flatten(us[1..])
  }

  function Min(a: nat, b: nat): nat { if a < b then a else b }

  /** What the stored list should be after the updates in `full`: the ten newest, newest first,
      numbered modulo 11. */
  function Window(full: seq<seq<Byte>>): (h: seq<Entry>)
    ensures |h| == Min(|full|, MAX_HISTORY)
  {
    seq(Min(|full|, MAX_HISTORY), j requires 0 <= j < |full| =>
        Entry((|full| - 1 - j) % KEYS, full[|full| - 1 - j]))
  }

  /** The window invariant: a push onto the window of N updates gives the window of N + 1. */
  lemma WindowPush(full: seq<seq<Byte>>, types: seq<Byte>)
    ensures Pushed(Window(full), |full| % KEYS, types) == Window(full + [types])
    ensures NextKey(|full| % KEYS) == |full + [types]| % KEYS
  {
    var h := Pushed(Window(full), |full| % KEYS, types);
    var w := Window(full + [types]);
    assert |h| == |w|;
    forall j | 0 <= j < |w|
      ensures h[j] == w[j]
    {
      assert (full + [types])[|full| - j] == if j == 0 then types else full[|full| - j];
    }
  }

  /** Any number of pushes from the empty history. */
  function PushAll(updates: seq<seq<Byte>>): (r: (seq<Entry>, int))
  {
    if updates == [] then ([], 0)
    else
      var (h, index) := PushAll(updates[..|updates| - 1]);
      (Pushed(h, index, updates[|updates| - 1]), NextKey(index))
  }

  /** After N calls: min(N, 10) entries, entry j is update N-1-j with key (N-1-j) mod 11, and the
      next key is N mod 11. */
  lemma {:induction false} PushAllIsWindow(updates: seq<seq<Byte>>)
    ensures PushAll(updates) == (Window(updates), |updates| % KEYS)
  {
    if updates != [] {
      var front := updates[..|updates| - 1];
      PushAllIsWindow(front);
      WindowPush(front, updates[|updates| - 1]);
      assert updates == front + [updates[|updates| - 1]];
    }
  }

  /** Keys in a window are pairwise distinct, so the pair comparison with the front entry holds
      at index 0 only. */
  lemma WindowKeysDistinct(full: seq<seq<Byte>>, i: nat, j: nat)
    requires i < |Window(full)| && j < |Window(full)|
    ensures Window(full)[i].key == Window(full)[j].key <==> i == j
    ensures Window(full)[i] == Window(full)[0] <==> i == 0
  {
    ModDistinct(|full| - 1 - i, |full| - 1 - j);
    ModDistinct(|full| - 1 - i, |full| - 1);
  }

  lemma ModDistinct(a: int, b: int)
    requires -KEYS < a - b < KEYS
    ensures a % KEYS == b % KEYS <==> a == b
  {
  }

  // ---------------------------------------------------------------- catching up

  lemma {:induction false} TypesOfWindow(full: seq<seq<Byte>>, i: nat)
    requires i <= |Window(full)|
    ensures TypesOfNewest(Window(full), i) == Flatten(full[|full| - i..])
  {
    if i > 0 {
      TypesOfWindow(full, i - 1);
      var tail := full[|full| - i..];
      assert tail[0] == full[|full| - i];
      assert tail[1..] == full[|full| - (i - 1)..];
    } else {
      assert full[|full|..] == [];
    }
  }

  lemma SameResidue(top: nat, pos: nat)
    requires pos <= top
    ensures (top - (top - pos) % KEYS) % KEYS == pos % KEYS
  {
    assert top - (top - pos) % KEYS == pos + KEYS * ((top - pos) / KEYS);
  }

  /** The search for the key of update `pos` stops (lag mod 11) entries from the front, or fails. */
  lemma FindKeyInWindow(full: seq<seq<Byte>>, pos: nat)
    requires pos < |full|
    ensures var m := (|full| - 1 - pos) % KEYS;
            && FindKey(Window(full), pos % KEYS) == m
            && (m < |Window(full)| || m == |Window(full)| == MAX_HISTORY)
  {
    var w, top := Window(full), |full| - 1;
    SameResidue(top, pos);
    var m := (top - pos) % KEYS;
    assert m <= top - pos;
    forall j | 0 <= j < |w|
      ensures w[j].key == pos % KEYS <==> j == m
    {
      ModDistinct(top - j, top - m);
    }
    if m < |w| {
      assert w[m].key == pos % KEYS;
    }
    hide Window, FindKey;
  }

  /** The exact answer for an observer whose key named update number `pos`, `lag` updates ago:
      the types of the last (lag mod 11) updates, and nothing when lag mod 11 is 10. */
  lemma MissingExact(full: seq<seq<Byte>>, pos: nat)
    requires pos < |full|
    ensures var m := (|full| - 1 - pos) % KEYS;
            && m <= |full|
            && Missing(Window(full), pos % KEYS) ==
               if m == MAX_HISTORY then [] else Dedup(Flatten(full[|full| - m..]))
  {
    hide TypesOfNewest, FindKey;
    var w := Window(full);
    var m := (|full| - 1 - pos) % KEYS;
    FindKeyInWindow(full, pos);
    if m < |w| {
      WindowKeysDistinct(full, m, 0);
      TypesOfWindow(full, m);
      if m == 0 {
        assert full[|full|..] == [];
      }
    }
  }

  /** A key left over from another player of the same name is taken for that number among the updates of
      the new one: nothing is sent until there is such an update, and then what came after the latest
      update of that number modulo 11. */
  lemma StaleKey(full: seq<seq<Byte>>, key: nat)
    requires key < KEYS
    ensures var m := (|full| - 1 - key) % KEYS;
            && (key < |full| ==> m <= |full|)
            && Missing(Window(full), key) ==
               if |full| <= key || m == MAX_HISTORY then [] else Dedup(Flatten(full[|full| - m..]))
  {
    hide Missing, Window, Dedup, Flatten;
    if key < |full| {
      MissingExact(full, key);
    } else {
      KeyNotReached(full, key);
    }
  }

  lemma KeyNotReached(full: seq<seq<Byte>>, key: nat)
    requires |full| <= key < KEYS
    ensures Missing(Window(full), key) == []
  {
    hide Dedup, TypesOfNewest, FindKey;
    forall j | 0 <= j < |Window(full)|
      ensures Window(full)[j].key < key
    {
      ModDistinct(|full| - 1 - j, |full| - 1 - j);
    }
    assert FindKey(Window(full), key) == |Window(full)|;
  }

  // ---------------------------------------------------------------- what deduplication keeps

  /** Same elements, no repetitions. */
  lemma {:induction false} DedupElements(s: seq<Byte>)
    ensures forall x :: x in Dedup(s) <==> x in s
    ensures forall i, j :: 0 <= i < j < |Dedup(s)| ==> Dedup(s)[i] != Dedup(s)[j]
  {
    if s != [] {
      var front, x := s[..|s| - 1], s[|s| - 1];
      DedupElements(front);
      assert s == front + [x];
    }
  }

  /** Index of the first occurrence. */
  function First(s: seq<Byte>, x: Byte): (i: nat)
    requires x in s
    ensures i < |s| && s[i] == x
    ensures forall k :: 0 <= k < i ==> s[k] != x
  {
    if s[0] == x then 0 else 1 + First(s[1..], x)
  }

  lemma FirstInPrefix(s: seq<Byte>, n: nat, x: Byte)
    requires n <= |s| && x in s[..n]
    ensures x in s && First(s, x) == First(s[..n], x)
  {
    var i := First(s[..n], x);
    assert s[i] == s[..n][i] == x;
    forall k | 0 <= k < i
      ensures s[k] != x
    {
      assert s[k] == s[..n][k];
    }
  }

  /** Elements appear in the order of their first occurrence. */
  lemma {:induction false} DedupOrder(s: seq<Byte>, i: nat, j: nat)
    requires i < j < |Dedup(s)|
    ensures Dedup(s)[i] in s && Dedup(s)[j] in s
    ensures First(s, Dedup(s)[i]) < First(s, Dedup(s)[j])
  {
    var n := |s| - 1;
    var front, x := s[..n], s[n];
    DedupElements(front);
    DedupElements(s);
    var d := Dedup(s);
    FirstInPrefix(s, n, d[i]);
    if j < |Dedup(front)| {
      DedupOrder(front, i, j);
      FirstInPrefix(s, n, d[j]);
    } else {
      assert forall k :: 0 <= k < n ==> s[k] == front[k];
      assert First(s, x) == n;
    }
  }

  /** For a lag of at most nine the answer is exactly the set of types touched since. */
  lemma MissingComplete(full: seq<seq<Byte>>, pos: nat, t: Byte)
    requires pos < |full| && |full| - 1 - pos <= 9
    ensures t in Missing(Window(full), pos % KEYS) <==> t in Flatten(full[pos + 1..])
  {
    hide Missing, Window, Dedup, Flatten;
    MissingExact(full, pos);
    var m := (|full| - 1 - pos) % KEYS;
    assert m == |full| - 1 - pos;
    DedupElements(Flatten(full[pos + 1..]));
  }

  lemma {:induction false} FlattenMember(us: seq<seq<Byte>>, t: Byte)
    ensures t in Flatten(us) <==> exists i :: 0 <= i < |us| && t in us[i]
  {
    if us != [] {
      FlattenMember(us[1..], t);
      if t in Flatten(us[1..]) {
        var i :| 0 <= i < |us[1..]| && t in us[1..][i];
        assert t in us[i + 1];
      }
      if i :| 0 <= i < |us| && t in us[i] && i > 0 {
        assert t in us[1..][i - 1];
      }
    }
  }

  /** Whatever the lag, no type is named that was untouched since the key. */
  lemma MissingSound(full: seq<seq<Byte>>, pos: nat, t: Byte)
    requires pos < |full|
    requires t in Missing(Window(full), pos % KEYS)
    ensures t in Flatten(full[pos + 1..])
  {
    hide Missing, Window, Dedup, Flatten;
    MissingExact(full, pos);
    var m := (|full| - 1 - pos) % KEYS;
    assert m <= |full| - 1 - pos;
    hide KEYS;
    var tail := full[|full| - m..];
    DedupElements(Flatten(tail));
    FlattenMember(tail, t);
    var i :| 0 <= i < |tail| && t in tail[i];
    var since := full[pos + 1..];
    assert since[|since| - m + i] == tail[i];
    FlattenMember(since, t);
  }

  /** For updates that touch something (the only ones recorded), the answer is empty, and the
      observer is skipped, exactly when the lag is 0 or 10 modulo 11. */
  lemma MissingEmptyIff(full: seq<seq<Byte>>, pos: nat)
    requires pos < |full|
    requires forall i :: 0 <= i < |full| ==> full[i] != []
    ensures Missing(Window(full), pos % KEYS) == [] <==>
            (|full| - 1 - pos) % KEYS in {0, MAX_HISTORY}
  {
    MissingExact(full, pos);
    var m := (|full| - 1 - pos) % KEYS;
    if m != 0 && m != MAX_HISTORY {
      var tail := full[|full| - m..];
      assert tail[0] == full[|full| - m];
      var t := tail[0][0];
      FlattenMember(tail, t);
      DedupElements(Flatten(tail));
    } else if m == 0 {
      assert full[|full|..] == [];
    }
  }

  /** The query names every type touched since update number `pos`. */
  ghost predicate NothingLost(full: seq<seq<Byte>>, pos: nat)
    requires pos < |full|
  {
    forall t :: t in Flatten(full[pos + 1..]) ==> t in Missing(Window(full), pos % KEYS)
  }

  /** A history that a lag of ten or more loses: the first update after the key crouches, all
      later ones move. */
  function Loser(lag: nat): (full: seq<seq<Byte>>)
    ensures |full| == lag + 1
  {
    seq(lag + 1, i requires 0 <= i => if i == 1 then [CROUCH] else [POSITION_X])
  }

  lemma LoserTail(lag: nat, m: nat)
    requires m < lag
    ensures CROUCH !in Flatten(Loser(lag)[lag + 1 - m..])
    ensures CROUCH in Flatten(Loser(lag)[1..])
  {
    var full := Loser(lag);
    var tail := full[lag + 1 - m..];
    forall i | 0 <= i < |tail|
      ensures tail[i] == [POSITION_X]
    {
      assert tail[i] == full[lag + 1 - m + i];
    }
    FlattenMember(tail, CROUCH);
    assert full[1..][0] == [CROUCH];
    FlattenMember(full[1..], CROUCH);
  }

  lemma LostWhenForgotten(full: seq<seq<Byte>>, t: Byte)
    requires |full| > 10 && t in Flatten(full[1..])
    requires var m := (|full| - 1) % KEYS; m == MAX_HISTORY || t !in Flatten(full[|full| - m..])
    ensures !NothingLost(full, 0)
  {
    hide Missing, Window, Dedup, Flatten;
    MissingExact(full, 0);
    var m := (|full| - 1) % KEYS;
    if m != MAX_HISTORY {
      DedupElements(Flatten(full[|full| - m..]));
    }
    assert t !in Missing(Window(full), 0 % KEYS);
  }

  /** The window limit: a lag is safe for every history if and only if it is at most nine. */
  lemma LagLimit(lag: nat)
    ensures (forall full: seq<seq<Byte>>, pos: nat ::
               pos < |full| && |full| - 1 - pos == lag ==> NothingLost(full, pos))
            <==> lag <= 9
  {
    if lag <= 9 {
      forall full: seq<seq<Byte>>, pos: nat, t | pos < |full| && |full| - 1 - pos == lag
        ensures t in Flatten(full[pos + 1..]) ==> t in Missing(Window(full), pos % KEYS)
      {
        MissingComplete(full, pos, t);
      }
    } else {
      var m := lag % KEYS;
      LoserTail(lag, if m == MAX_HISTORY then 0 else m);
      LostWhenForgotten(Loser(lag), CROUCH);
    }
  }
}
