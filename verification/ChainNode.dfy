// BlockChain in its own form: add_block, redo_block, undo_block and
// reorganize_blocks changing fields in loops, tied to module BlockChain.
module ChainNode {
  import opened Basics
  import opened ChainLedger
  import opened Redo
  import opened BlockRedo
  import opened HeaderTree
  import opened ChainIndex
  import opened BlockChain
  import opened ChainState

  lemma {:induction false} PutTxsStop(m: map<Hash, TxPos>, ids: seq<Hash>, n: nat, h: Height)
    requires n <= |ids| && PutTxs(m, ids[..n], h).None?
    ensures PutTxs(m, ids, h).None?
    decreases |ids|
  {
    if n < |ids| {
      assert ids[..|ids| - 1][..n] == ids[..n];
      PutTxsStop(m, ids[..|ids| - 1], n, h);
    } else {
      assert ids[..n] == ids;
    }
  }

  lemma {:induction false} DelTxsStop(m: map<Hash, TxPos>, ids: seq<Hash>, n: nat)
    requires n <= |ids| && DelTxs(m, ids[..n]).None?
    ensures DelTxs(m, ids).None?
    decreases |ids|
  {
    if n < |ids| {
      assert ids[..|ids| - 1][..n] == ids[..n];
      DelTxsStop(m, ids[..|ids| - 1], n);
    } else {
      assert ids[..n] == ids;
    }
  }

  lemma PrefixIsUnique(a: seq<Hash>, b: seq<Hash>, n: nat)
    requires n <= |a| && n <= |b| && a[..n] == b[..n]
    requires n < |a| && n < |b| ==> a[n] != b[n]
    ensures CommonPrefix(a, b) == n
  {
    var m := CommonPrefix(a, b);
    forall i | 0 <= i < n
      ensures a[i] == b[i]
    {
      assert a[..n][i] == b[..n][i];
    }
    forall i | 0 <= i < m
      ensures a[i] == b[i]
    {
      assert a[..m][i] == b[..m][i];
    }
  }

  /** The fork found by walking down is where the branches stop agreeing. */
  lemma ForkIsPrefix(t: Headers, genesis: Hash, h1: Hash, h2: Hash, c: Hash, chain1: seq<Hash>, chain2: seq<Hash>)
    requires Tree(t, genesis) && h1 in t && h2 in t && Fork(t, genesis, h1, h2, c, chain1, chain2)
    ensures CommonPrefix(Branch(t, genesis, h1), Branch(t, genesis, h2)) == |Branch(t, genesis, c)|
  {
    var n := |Branch(t, genesis, c)|;
    if chain1 != [] && chain2 != [] {
      assert chain1[|chain1| - 1] in chain1 && chain2[|chain2| - 1] in chain2;
    }
    PrefixIsUnique(Branch(t, genesis, h1), Branch(t, genesis, h2), n);
  }

  class ChainStore {
    const env: Env
    const db: ChainDb
    var headers: Headers
    var blocks: map<Hash, Block>
    var chain: seq<Hash>  // height to block
    var tipDifficulty: nat
    var gis: map<Hash, seq<seq<nat>>>
    var stamps: set<Stamp>
    var txs: map<Hash, TxPos>

    ghost function Contents(): Node
      reads this, db
    {
      Node(headers, blocks, chain, tipDifficulty, Indexed(db.ledger, gis, stamps, txs))
    }

    constructor (env: Env)
      ensures db.Valid() && fresh(db) && Contents() == FRESH_NODE && this.env == env
    {
      this.env := env;
      db := new ChainDb();
      headers, blocks, chain, tipDifficulty := map[], map[], [], 0;
      gis, stamps, txs := map[], {}, map[];
    }

    method PutTransactions(b: Block, h: Height) returns (ok: bool)
      modifies this`txs
      ensures ok == PutTxs(old(txs), TxIds(b), h).Some?
      ensures ok ==> txs == PutTxs(old(txs), TxIds(b), h).value
    {
      var ids := TxIds(b);
      for n := 0 to |ids|
        invariant PutTxs(old(txs), ids[..n], h) == Some(txs)
      {
        assert ids[..n + 1][..n] == ids[..n];
        if ids[n] in txs {
          PutTxsStop(old(txs), ids, n + 1, h);
          return false;
        }
        txs := txs[ids[n] := TxPos(h, n)];
      }
      assert ids[..|ids|] == ids;
      return true;
    }

    method DeleteTransactions(b: Block) returns (ok: bool)
      modifies this`txs
      ensures ok == DelTxs(old(txs), TxIds(b)).Some?
      ensures ok ==> txs == DelTxs(old(txs), TxIds(b)).value
    {
      var ids := TxIds(b);
      for n := 0 to |ids|
        invariant DelTxs(old(txs), ids[..n]) == Some(txs)
      {
        assert ids[..n + 1][..n] == ids[..n];
        if ids[n] !in txs {
          DelTxsStop(old(txs), ids, n + 1);
          return false;
        }
        txs := txs - {ids[n]};
      }
      assert ids[..|ids|] == ids;
      return true;
    }

    /** redo_block and push_chain for a stored block. */
    method RedoAndPush(h: Hash) returns (r: Outcome<()>)
      requires db.Valid()
      modifies this`chain, this`tipDifficulty, this`gis, this`stamps, this`txs, db
      ensures match RedoTip(env, old(Contents()), h)
              case Done(t) => r == Done(()) && db.Valid() && Contents() == t
              case Refused(e) => r == Refused(e) && db.Valid() && Contents() == old(Contents())
              case Dead => r == Dead
    {
      hide RedoBlock, PutTxs;
      if h !in headers || h !in blocks {
        return Dead;
      }
      var b, height := blocks[h], headers[h].height;
      var s := RedoBlockInPlace(env.rules, db, b.base, b.txs, height, b.timestamp, env.ChecksAt(height));
      if !s.Done? {
        return if s.Refused? then Refused(s.error) else Dead;
      }
      var stamp := Stamp(b.timestamp, height);
      if b.hash in gis || stamp in stamps {
        return Dead;
      }
      gis := gis[b.hash := s.value];
      stamps := stamps + {stamp};
      var ok := PutTransactions(b, height);
      if !ok {
        return Dead;
      }
      chain := chain + [h];
      tipDifficulty := headers[h].cumulativeDifficulty;
      return Done(());
    }

    /** undo_block and pop_chain. */
    method UndoAndPop() returns (ok: bool)
      requires db.Valid()
      modifies this`chain, this`tipDifficulty, this`gis, this`stamps, this`txs, db
      ensures ok == UndoTip(old(Contents())).Some?
      ensures ok ==> db.Valid() && Contents() == UndoTip(old(Contents())).value
    {
      hide UndoTxs, DelTxs;
      if |chain| <= 1 {
        return false;
      }
      var tip, height := chain[|chain| - 1], |chain| - 1;
      var below := chain[height - 1];
      if tip !in blocks || blocks[tip].prev != below || below !in headers {
        return false;
      }
      var b := blocks[tip];
      var stamp := Stamp(b.timestamp, height);
      ok := db.UndoTransactions(AllTxs(b));
      if !ok || b.hash !in gis || stamp !in stamps {
        return false;
      }
      gis := gis - {b.hash};
      stamps := stamps - {stamp};
      ok := DeleteTransactions(b);
      if ok {
        chain := chain[..height];
        tipDifficulty := headers[below].cumulativeDifficulty;
      }
    }

    /** reorganize_blocks: undo to the common block, then redo the new branch.
        `done` is false when a block of the branch was missing or refused. */
    method ReorganizeBlocks(target: Hash) returns (ok: bool, done: bool)
      requires db.Valid() && Stored(env, headers, blocks) && OnChain(env, Contents()) && chain != [] && target in headers
      modifies this`chain, this`tipDifficulty, this`gis, this`stamps, this`txs, db
      ensures ok == Reorganize(env, old(Contents()), target).Some?
      ensures ok ==> db.Valid() && Contents() == Reorganize(env, old(Contents()), target).value.node
      ensures ok ==>
                done == (old(|CommonRest(target)|) == Reorganize(env, old(Contents()), target).value.count)
    {
      hide UndoTip, RedoTip;
      ghost var s := Contents();
      ghost var branch := Branch(headers, env.genesis, target);
      ghost var n := CommonPrefix(chain, branch);
      LinkedIsBranch(headers, env.genesis, chain);
      var common, chain1, chain2 := GetCommonBlock(headers, env.genesis, chain[|chain| - 1], target);
      ForkIsPrefix(headers, env.genesis, chain[|chain| - 1], target, common, chain1, chain2);
      BranchHasBlocks(env, s, target, n);
      assert branch[n..] == Reversed(chain2);
      ok := UndoDownTo(common, n);
      if !ok {
        return false, false;
      }
      ghost var t := Contents();
      ok, done := RedoUp(chain2);
    }

    ghost function CommonRest(target: Hash): seq<Hash>
      requires Tree(headers, env.genesis) && target in headers
      reads this
    {
      var branch := Branch(headers, env.genesis, target);
      branch[CommonPrefix(chain, branch)..]
    }

    method UndoDownTo(common: Hash, ghost n: nat) returns (ok: bool)
      requires db.Valid() && Linked(headers, env.genesis, chain)
      requires 1 <= n <= |chain| && chain[n - 1] == common
      modifies this`chain, this`tipDifficulty, this`gis, this`stamps, this`txs, db
      ensures ok == UndoTo(old(Contents()), n).Some?
      ensures ok ==> db.Valid() && Contents() == UndoTo(old(Contents()), n).value
    {
      hide UndoIndexed;
      while chain[|chain| - 1] != common
        invariant db.Valid() && n <= |chain| && chain[n - 1] == common && Linked(headers, env.genesis, chain)
        invariant UndoTo(old(Contents()), n) == UndoTo(Contents(), n)
        decreases |chain|
      {
        ok := UndoAndPop();
        if !ok {
          return;
        }
      }
      assert headers[common].height == n - 1 == |chain| - 1;
      return true;
    }

    method RedoUp(chain2: seq<Hash>) returns (ok: bool, done: bool)
      requires db.Valid()
      modifies this`chain, this`tipDifficulty, this`gis, this`stamps, this`txs, db
      ensures ok == RedoAll(env, old(Contents()), Reversed(chain2)).Some?
      ensures ok ==> db.Valid() && Contents() == RedoAll(env, old(Contents()), Reversed(chain2)).value.node
      ensures ok ==> done == (RedoAll(env, old(Contents()), Reversed(chain2)).value.count == |chain2|)
    {
      hide RedoTip;
      var rest := chain2;
      ghost var s, hs, n := Contents(), Reversed(chain2), 0;
      assert hs[0..] == hs;
      while rest != []
        invariant db.Valid() && n == |chain2| - |rest| && rest == chain2[..|rest|]
        invariant RedoAll(env, s, hs) ==
                  (var p := RedoAll(env, Contents(), hs[n..]);
                   if p.None? then None else Some(Progress(p.value.node, p.value.count + n)))
        decreases |rest|
      {
        var h := rest[|rest| - 1];
        assert hs[n..][0] == h && hs[n..][1..] == hs[n + 1..];
        if h !in blocks {
          return true, false;
        }
        var r := RedoAndPush(h);
        if !r.Done? {
          return r.Refused?, false;
        }
        rest := rest[..|rest| - 1];
        n := n + 1;
      }
      return true, true;
    }

    /** What add_block does with a block it has just stored. */
    method ConsiderStored(b: Block, cd: nat) returns (r: Option<Action>)
      requires db.Valid() && Stored(env, headers, blocks) && b.hash in headers
      requires b.hash != env.genesis ==> OnChain(env, Contents()) && chain != []
      modifies this, db
      ensures match Consider(env, old(Contents()), b, cd)
              case None => r.None?
              case Some(a) => r == Some(a.action) && db.Valid() && Contents() == a.node
    {
      hide Reorganize, RedoTip, OnChain;
      if b.hash == env.genesis {
        var x := RedoAndPush(b.hash);
        if !x.Done? {
          return None;
        }
      } else if cd > tipDifficulty {
        if chain != [] && chain[|chain| - 1] == b.prev {
          var x := RedoAndPush(b.hash);
          if !x.Done? {
            return if x.Refused? then Some(Ban) else None;
          }
        } else {
          var ok, _ := ReorganizeBlocks(b.hash);
          if !ok {
            return None;
          }
        }
      }
      return Some(if chain != [] && chain[|chain| - 1] == b.hash then BroadcastAll else Nothing);
    }

    method AddBlock(b: Block, verdict: Verdict) returns (r: Option<Action>)
      requires db.Valid() && Stored(env, headers, blocks) && OnChain(env, Contents())
      modifies this, db
      ensures match BlockChain.AddBlock(env, old(Contents()), b, verdict)
              case None => r.None?
              case Some(a) => r == Some(a.action) && db.Valid() && Contents() == a.node
    {
      hide Consider;
      ghost var s := Contents();
      if b.hash in headers && b.hash in blocks {
        return Some(Nothing);
      }
      if b.hash != env.genesis && b.prev !in headers {
        return Some(Nothing);
      }
      if verdict.Invalid? || !SingleCoinbase(b.base) {
        return Some(Ban);
      }
      if b.hash in headers {
        return None;
      }
      var cd := verdict.cumulativeDifficulty;
      StoreStored(env, s, b, cd);
      StoreKeepsTree(env, s, b, cd);
      var height := if b.hash == env.genesis then 0 else headers[b.prev].height + 1;
      blocks := blocks[b.hash := b];
      headers := headers[b.hash := Header(b.hash, b.prev, height, b.timestamp, cd)];
      r := ConsiderStored(b, cd);
    }
  }
}
