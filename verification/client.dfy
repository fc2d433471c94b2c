/** A signed-on player (src/client.cpp): the object with its setters, history and inbox, and the
    value it holds. */
module Clients {
  import opened Wire
  import opened History

  /** The fields a constructor leaves uninitialised: whatever memory held. */
  datatype Garbage = Garbage(velx: Single, vely: Single, velz: Single, deathChanged: bool)

  /** A saved position. */
  datatype Spot = Spot(x: Value, y: Value, z: Value)

  /** The value of a client object. `changed` is the set of true flags in variable_states. */
  datatype Session = Session(
    username: Bytes, team: Bytes, character: Bytes, levelName: Bytes, levelPath: Bytes,
    vars: Vars, changed: set<Byte>,
    history: seq<Entry>, historyIndex: int, keys: map<Bytes, int>,
    inbox: seq<Bytes>, deathChanged: bool, timeOfDeath: int, signedOn: bool, saved: Spot)

  function NewSession(g: Garbage): Session
  {
    var vars := INITIAL_VARS[VELOCITY_X := FloatValue(g.velx)]
                            [VELOCITY_Y := FloatValue(g.vely)]
                            [VELOCITY_Z := FloatValue(g.velz)];
    Session([], [], [], [], [], vars, {}, [], 0, map[], [], g.deathChanged, 0, false, Spot(ZERO, ZERO, ZERO))
  }

  /** One of the setters that also raise the variable's flag. */
  function Set(c: Session, t: Byte, v: Value): Session
    requires Fits(v, KindIn(SelfGrammar, t))
  {
    c.(vars := c.vars[t := v], changed := c.changed + {t})
  }

  function KeyOf(c: Session, username: Bytes): int
  {
    if username in c.keys then c.keys[username] else -1
  }

  function AddedHistory(c: Session, types: seq<Byte>): Session
  {
    c.(history := Pushed(c.history, c.historyIndex, types), historyIndex := NextKey(c.historyIndex))
  }

  function Received(c: Session, message: Bytes): Session
  {
    c.(inbox := c.inbox + [message])
  }

  class Client {
    var username: Bytes
    var team: Bytes
    var character: Bytes
    var levelName: Bytes
    var levelPath: Bytes
    var vars: Vars
    var changed: set<Byte>
    var history: seq<Entry>
    var historyIndex: int
    var keys: map<Bytes, int>
    var inbox: seq<Bytes>
    var deathChanged: bool
    var timeOfDeath: int
    var signedOn: bool
    var saved: Spot

    function State(): Session
      reads this
    {
      Session(username, team, character, levelName, levelPath, vars, changed,
              history, historyIndex, keys, inbox, deathChanged, timeOfDeath, signedOn, saved)
    }

    constructor (g: Garbage)
      ensures State() == NewSession(g)
    {
      username, team, character, levelName, levelPath := [], [], [], [], [];
      vars := INITIAL_VARS[VELOCITY_X := FloatValue(g.velx)]
                          [VELOCITY_Y := FloatValue(g.vely)]
                          [VELOCITY_Z := FloatValue(g.velz)];
      changed := {};
      history, historyIndex, keys, inbox := [], 0, map[], [];
      deathChanged, timeOfDeath, signedOn, saved := g.deathChanged, 0, false, Spot(ZERO, ZERO, ZERO);
    }

    method SetAllVariablesOld()
      modifies this
      ensures State() == old(State()).(changed := {})
    {
      changed := {};
    }

    /** The 28 setters set_posx, set_crouch, ... : each raises its own flag and writes its field. */
    method SetVariable(t: Byte, v: Value)
      requires Fits(v, KindIn(SelfGrammar, t))
      modifies this
      ensures State() == Set(old(State()), t, v)
    {
      changed := changed + {t};
      vars := vars[t := v];
    }

    method AddHistory(types: seq<Byte>)
      modifies this
      ensures State() == AddedHistory(old(State()), types)
    {
      history := [Entry(historyIndex, types)] + history;
      historyIndex := historyIndex + 1;
      if historyIndex > MAX_HISTORY {
        historyIndex := 0;
      }
      if |history| > MAX_HISTORY {
        history := history[..|history| - 1];
      }
    }

    method GetLastUpdateKey() returns (key: int)
      ensures key == LastKey(history)
    {
      if |history| < 1 {
        return -1;
      }
      return history[0].key;
    }

    method GetKey(name: Bytes) returns (key: int)
      ensures key == KeyOf(State(), name)
    {
      if name in keys {
        return keys[name];
      } else {
        return -1;
      }
    }

    method SetKey(name: Bytes, key: int)
      modifies this
      ensures State() == old(State()).(keys := old(keys)[name := key])
    {
      keys := keys[name := key];
    }

    /** The search for the key. */
    method GetMissingUpdateVariableTypes(key: int) returns (types: seq<Byte>)
      ensures types == Missing(history, key)
    {
      types := [];
      var i := 0;
      while i < |history|
        invariant i <= FindKey(history, key) && types == []
      {
        FindKeyFrom(history, key, i);
        if history[i].key == key {
          if history[i] == history[0] {
            break;
          }
          types := CollectTypes(i);
          break;
        }
        i := i + 1;
      }
    }

    /** The two inner loops: the entries newer than index i, oldest first, and their types, each
        added unless already there. */
    method CollectTypes(i: nat) returns (types: seq<Byte>)
      requires i <= |history|
      ensures types == Dedup(TypesOfNewest(history, i))
    {
      hide Dedup;
      types := [];
      var y := i - 1;
      ghost var seen: seq<Byte> := [];
      assert types == Dedup(seen) by { DedupEmpty(); }
      while y >= 0
        invariant -1 <= y < i
        invariant types == Dedup(seen)
        invariant seen + TypesOfNewest(history, y + 1) == TypesOfNewest(history, i)
      {
        var current := history[y];
        ghost var before := seen;
        for k := 0 to |current.types|
          invariant seen == before + current.types[..k] && types == Dedup(seen)
        {
          if current.types[k] !in types {
            types := types + [current.types[k]];
          }
          DedupStep(seen, current.types[k]);
          seen := seen + [current.types[k]];
        }
        assert seen == before + current.types;
        y := y - 1;
      }
      assert seen == seen + TypesOfNewest(history, 0);
    }

    method AddToInbox(message: Bytes)
      modifies this
      ensures State() == Received(old(State()), message)
    {
      inbox := inbox + [message];
    }

    /** Takes the newest message. */
    method GetInboxMessage() returns (message: Bytes)
      requires inbox != []
      modifies this
      ensures message == old(inbox)[|old(inbox)| - 1]
      ensures State() == old(State()).(inbox := old(inbox)[..|old(inbox)| - 1])
    {
      message := inbox[|inbox| - 1];
      inbox := inbox[..|inbox| - 1];
    }
  }

  /** The value of a client, field by field. */
  lemma Fields(c: Client)
    ensures var s := c.State();
            && s.username == c.username && s.levelPath == c.levelPath && s.vars == c.vars && s.changed == c.changed
            && s.history == c.history && s.keys == c.keys && s.inbox == c.inbox
            && s.deathChanged == c.deathChanged && s.timeOfDeath == c.timeOfDeath
            && s.character == c.character && s.saved == c.saved
  {
  }

  lemma DedupEmpty()
    ensures Dedup([]) == []
  {
  }

  lemma DedupStep(s: seq<Byte>, x: Byte)
    ensures Dedup(s + [x]) == if x in Dedup(s) then Dedup(s) else Dedup(s) + [x]
  {
    assert (s + [x])[..|s|] == s;
  }

  lemma {:induction false} FindKeyFrom(h: seq<Entry>, key: int, i: nat)
    requires i < |h| && i <= FindKey(h, key)
    ensures FindKey(h, key) == i <==> h[i].key == key
  {
  }
}
