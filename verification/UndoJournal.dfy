// The wallet's per-block undo journal: put_with_undo, del_with_undo,
// push_chain and pop_chain over the wallet database.
module UndoJournal {
  import opened Basics

  type Key = string
  type Value = seq<bv8>
  type Header = seq<bv8>

  /** What a key held before the block: None when it did not exist. */
  type UndoMap = map<Key, Option<Value>>

  /** Header and undo records live under prefixes no journaled key has. The tip
      is one less than the tail while the chain is empty. */
  datatype Db = Db(user: map<Key, Value>, headers: map<int, Header>, undo: map<int, UndoMap>, tip: int, tail: int,
                   tipHeader: Header)

  datatype State = State(db: Db, current: UndoMap)

  function Lookup(m: map<Key, Value>, k: Key): Option<Value> {
    if k in m then Some(m[k]) else None
  }

  function Recorded(u: UndoMap, m: map<Key, Value>, k: Key): UndoMap {
    if k in u then u else u[k := Lookup(m, k)]
  }

  // ----- writes; None is a failed put or del, which ends the run -----

  datatype Write =
    | Put(key: Key, value: Value, noOverwrite: bool)
    | Del(key: Key, mustExist: bool)

  function WriteWithUndo(s: State, w: Write): Option<State> {
    var u := Recorded(s.current, s.db.user, w.key);
    match w
    case Put(k, v, noOverwrite) =>
      if noOverwrite && k in s.db.user then None
      else Some(State(s.db.(user := s.db.user[k := v]), u))
    case Del(k, mustExist) =>
      if mustExist && k !in s.db.user then None
      else Some(State(s.db.(user := s.db.user - {k}), u))
  }

  function WriteAll(s: State, ws: seq<Write>): Option<State> {
    if ws == [] then Some(s) else
    var t :- WriteAll(s, ws[..|ws| - 1]);
    WriteWithUndo(t, ws[|ws| - 1])
  }

  /** push_chain: the header, and the undo map unless nothing was written. */
  function Pushed(s: State, header: Header): Option<State> {
    var tip := s.db.tip + 1;
    if tip in s.db.headers then None else
    var db := s.db.(tip := tip, tipHeader := header, headers := s.db.headers[tip := header]);
    if s.current == map[] then Some(State(db, map[]))
    else if tip in db.undo then None
    else Some(State(db.(undo := db.undo[tip := s.current]), map[]))
  }

  function Restore(m: map<Key, Value>, u: UndoMap): map<Key, Value> {
    map k | k in m.Keys + u.Keys && (if k in u then u[k].Some? else true) :: if k in u then u[k].value else m[k]
  }

  /** pop_chain. */
  function Popped(s: State): Option<State> {
    var tip := s.db.tip;
    if tip + 1 == s.db.tail then None else
    var db := if tip in s.db.undo
              then s.db.(undo := s.db.undo - {tip}, user := Restore(s.db.user, s.db.undo[tip]))
              else s.db;
    if tip !in db.headers then None else
    var headers := db.headers - {tip};
    if tip == s.db.tail then Some(s.(db := db.(headers := headers, tip := tip - 1, tipHeader := [])))
    else if tip - 1 !in headers then None
    else Some(s.(db := db.(headers := headers, tip := tip - 1, tipHeader := headers[tip - 1])))
  }

  // ----- runs of blocks -----

  datatype Block = Block(writes: seq<Write>, header: Header)

  function PlayBlock(s: State, b: Block): Option<State> {
    var t :- WriteAll(s, b.writes);
    Pushed(t, b.header)
  }

  function Play(s: State, bs: seq<Block>): Option<State> {
    if bs == [] then Some(s) else
    var t :- Play(s, bs[..|bs| - 1]);
    PlayBlock(t, bs[|bs| - 1])
  }

  function PopMany(s: State, k: nat): Option<State>
    decreases k
  {
    if k == 0 then Some(s) else
    var t :- Popped(s);
    PopMany(t, k - 1)
  }

  // ----- the journal is exact -----

  /** The undo map knows what every key it holds was, and nothing else changed. */
  ghost predicate Remembers(u: UndoMap, was: map<Key, Value>, now: map<Key, Value>) {
    forall k :: (if k in u then u[k] else Lookup(now, k)) == Lookup(was, k)
  }

  lemma {:induction false} WriteAllRemembers(s: State, ws: seq<Write>)
    requires s.current == map[] && WriteAll(s, ws).Some?
    ensures var t := WriteAll(s, ws).value;
            && Remembers(t.current, s.db.user, t.db.user)
            && t.db == s.db.(user := t.db.user)
            && (ws == [] <==> t.current == map[])
  {
    if ws != [] {
      WriteAllRemembers(s, ws[..|ws| - 1]);
    }
  }

  lemma RestoreExact(u: UndoMap, was: map<Key, Value>, now: map<Key, Value>)
    requires Remembers(u, was, now)
    ensures Restore(now, u) == was
  {
    forall k
      ensures Lookup(Restore(now, u), k) == Lookup(was, k)
    {
    }
    forall k
      ensures k in Restore(now, u) <==> k in was
      ensures k in was ==> Restore(now, u)[k] == was[k]
    {
      assert Lookup(Restore(now, u), k) == Lookup(was, k);
    }
  }

  /** No block is half written, nothing is recorded above the tip, and the
      cached tip header is the stored one. */
  ghost predicate Clean(s: State) {
    && s.current == map[]
    && s.db.tail <= s.db.tip + 1
    && (if s.db.tip + 1 == s.db.tail then s.db.tipHeader == []
        else s.db.tip in s.db.headers && s.db.tipHeader == s.db.headers[s.db.tip])
    && (forall h :: h in s.db.undo ==> h <= s.db.tip)
  }

  lemma PopPlay(s: State, b: Block)
    requires Clean(s) && PlayBlock(s, b).Some?
    ensures Clean(PlayBlock(s, b).value) && Popped(PlayBlock(s, b).value) == Some(s)
  {
    WriteAllRemembers(s, b.writes);
    var t := WriteAll(s, b.writes).value;
    var p := PlayBlock(s, b).value;
    assert p.db.headers - {p.db.tip} == s.db.headers;
    if t.current == map[] {
      assert p.db.tip !in p.db.undo;
      RestoreExact(t.current, s.db.user, t.db.user);
      assert Restore(t.db.user, map[]) == t.db.user;
    } else {
      RestoreExact(t.current, s.db.user, t.db.user);
      assert p.db.undo - {p.db.tip} == s.db.undo;
    }
  }

  lemma {:induction false} PlayClean(s: State, bs: seq<Block>)
    requires Clean(s) && Play(s, bs).Some?
    ensures Clean(Play(s, bs).value)
  {
    if bs != [] {
      PlayClean(s, bs[..|bs| - 1]);
      PopPlay(Play(s, bs[..|bs| - 1]).value, bs[|bs| - 1]);
    }
  }

  /** After any number of blocks of any writes, as many pop_chain calls restore
      the wallet database exactly. */
  lemma {:induction false} PopManyPlay(s: State, bs: seq<Block>)
    requires Clean(s) && Play(s, bs).Some?
    ensures PopMany(Play(s, bs).value, |bs|) == Some(s)
  {
    if bs != [] {
      var front := bs[..|bs| - 1];
      PlayClean(s, front);
      PopPlay(Play(s, front).value, bs[|bs| - 1]);
      PopManyPlay(s, front);
    }
  }

  /** A block that wrote nothing leaves no undo record. */
  lemma EmptyBlock(s: State, header: Header)
    requires Clean(s) && PlayBlock(s, Block([], header)).Some?
    ensures PlayBlock(s, Block([], header)).value.db.undo == s.db.undo
            && PlayBlock(s, Block([], header)).value.db.user == s.db.user
  {
  }

  // ----- the same in place -----

  class WalletDb {
    var user: map<Key, Value>
    var headers: map<int, Header>
    var undo: map<int, UndoMap>
    var tip: int
    var tail: int
    var tipHeader: Header
    var currentUndoMap: UndoMap

    function Contents(): State
      reads this
    {
      State(Db(user, headers, undo, tip, tail, tipHeader), currentUndoMap)
    }

    constructor ()
      ensures Clean(Contents()) && user == map[] && headers == map[]
    {
      user, headers, undo, currentUndoMap := map[], map[], map[], map[];
      tip, tail, tipHeader := -1, 0, [];
    }

    method RecordUndo(key: Key)
      modifies this`currentUndoMap
      ensures currentUndoMap == Recorded(old(currentUndoMap), user, key)
    {
      if key !in currentUndoMap {
        var was: Option<Value> := None;
        if key in user {
          was := Some(user[key]);
        }
        currentUndoMap := currentUndoMap[key := was];
      }
    }

    method PutWithUndo(key: Key, value: Value, noOverwrite: bool) returns (ok: bool)
      modifies this`user, this`currentUndoMap
      ensures ok == WriteWithUndo(old(Contents()), Put(key, value, noOverwrite)).Some?
      ensures ok ==> Contents() == WriteWithUndo(old(Contents()), Put(key, value, noOverwrite)).value
    {
      RecordUndo(key);
      ok := !(noOverwrite && key in user);
      if ok {
        user := user[key := value];
      }
    }

    method DelWithUndo(key: Key, mustExist: bool) returns (ok: bool)
      modifies this`user, this`currentUndoMap
      ensures ok == WriteWithUndo(old(Contents()), Del(key, mustExist)).Some?
      ensures ok ==> Contents() == WriteWithUndo(old(Contents()), Del(key, mustExist)).value
    {
      RecordUndo(key);
      ok := !(mustExist && key !in user);
      if ok {
        user := user - {key};
      }
    }

    method PushChain(header: Header) returns (ok: bool)
      modifies this
      ensures ok == Pushed(old(Contents()), header).Some?
      ensures ok ==> Contents() == Pushed(old(Contents()), header).value
    {
      tip := tip + 1;
      if tip in headers {
        return false;
      }
      headers, tipHeader := headers[tip := header], header;
      if currentUndoMap != map[] {
        if tip in undo {
          return false;
        }
        undo := undo[tip := currentUndoMap];
      }
      currentUndoMap := map[];
      return true;
    }

    method UndoDbState(state: int)
      modifies this`user, this`undo
      ensures undo == old(undo) - {state}
      ensures user == if state in old(undo) then Restore(old(user), old(undo)[state]) else old(user)
    {
      if state !in undo {
        assert undo - {state} == undo;
        return;
      }
      var undoMap := undo[state];
      undo := undo - {state};
      ghost var was := user;
      var todo := undoMap.Keys;
      while todo != {}
        invariant todo <= undoMap.Keys && undo == old(undo) - {state}
        invariant user == Restore(was, map k | k in undoMap && k !in todo :: undoMap[k])
        decreases todo
      {
        var k :| k in todo;
        ghost var before := map j | j in undoMap && j !in todo :: undoMap[j];
        if undoMap[k].Some? {
          user := user[k := undoMap[k].value];
        } else {
          user := user - {k};
        }
        todo := todo - {k};
        assert (map j | j in undoMap && j !in todo :: undoMap[j]) == before[k := undoMap[k]];
      }
      assert (map k | k in undoMap && k !in todo :: undoMap[k]) == undoMap;
    }

    method PopChain() returns (ok: bool)
      modifies this
      ensures ok == Popped(old(Contents())).Some?
      ensures ok ==> Contents() == Popped(old(Contents())).value
    {
      if tip + 1 == tail {
        return false;
      }
      assert tip !in undo ==> undo - {tip} == undo;
      UndoDbState(tip);
      if tip !in headers {
        return false;
      }
      headers := headers - {tip};
      tip := tip - 1;
      if tip + 1 == tail {
        tipHeader := [];
        return true;
      }
      if tip !in headers {
        return false;
      }
      tipHeader := headers[tip];
      return true;
    }
  }
}
