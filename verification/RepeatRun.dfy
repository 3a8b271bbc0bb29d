// A run that ends: blocks without transactions until an output is unlocked, and
// then a block that spends it twice with one key image.
module RepeatRun {
  import opened Basics
  import opened ChainLedger
  import opened Redo
  import opened BlockRedo
  import opened HeaderTree
  import opened ChainIndex
  import opened BlockEnds
  import opened BlockChain
  import opened ChainEnds

  /** Blocks without transactions; the first one mints an output of amount 1,
      unlocked after ten blocks as the rules want. */
  function QuietBlock(n: nat): Block {
    Block(n, if n == 0 then 0 else n - 1, n, Transaction(1000 + n, n + 10, [Coinbase(n)], if n == 0 then [Output(1, 7)] else []), [])
  }

  function QuietRun(n: nat): seq<Submission> {
    if n == 0 then [] else QuietRun(n - 1) + [Submission(QuietBlock(n - 1), Valid(n))]
  }

  function UpTo(n: nat): (r: seq<Hash>)
    ensures |r| == n && forall i :: 0 <= i < n ==> r[i] == i
  {
    if n == 0 then [] else UpTo(n - 1) + [n - 1]
  }

  ghost predicate Minted(l: Ledger) {
    && OutKey(1, 0) in l.outs && l.outs[OutKey(1, 0)] == OutputRecord(10, 7, 0, false) && l.keyImages == map[]
  }

  /** Where a run of quiet blocks stands. */
  ghost predicate QuietAt(s: Node, n: nat) {
    && s.chain == UpTo(n) && s.tipDifficulty == n && (forall h: Hash :: h in s.headers <==> h < n)
    && (forall id: Hash :: id in s.indexed.txs <==> 1000 <= id < 1000 + n)
    && (if n == 0 then s.indexed == EMPTY_INDEXED else Minted(s.indexed.ledger))
  }

  /** No block is in a checkpoint zone; the first one has hash 0. */
  ghost predicate Checked(env: Env) {
    env.zoneEnd == 0 && env.genesis == 0
  }

  lemma QuietExec(x: Indexed, n: nat)
    requires if n == 0 then x.ledger == EMPTY_LEDGER else Minted(x.ledger)
    ensures ExecTxs(x.ledger, AllTxs(QuietBlock(n)), n).Some? && Minted(ExecTxs(x.ledger, AllTxs(QuietBlock(n)), n).value)
  {
    var base := QuietBlock(n).base;
    assert AllTxs(QuietBlock(n)) == [base];
    assert [base][..0] == [] && base.inputs[..0] == [];
    assert ExecTxs(x.ledger, [base][..0], n) == Some(x.ledger);
    assert ExecInputs(x.ledger, base.inputs[..0], n) == Some(x.ledger);
    assert ExecInputs(x.ledger, base.inputs, n) == Some(x.ledger);
    if n == 0 {
      assert base.outputs[..0] == [];
      assert ExecOutputs(x.ledger, base.outputs[..0], base.unlock, n) == x.ledger;
    }
  }

  lemma QuietIds(n: nat)
    ensures TxIds(QuietBlock(n)) == [1000 + n] && KeyImagesOf(QuietBlock(n).txs) == [] && SpentByTxs(QuietBlock(n).txs) == {}
  {
  }

  /** A quiet block goes through on the state before it. */
  lemma QuietRedo(env: Env, x: Indexed, n: nat, chain: seq<Hash>)
    requires Checked(env) && x.ledger.Valid() && |chain| == n && Recorded(x, chain) && n !in chain
    requires forall id: Hash :: id in x.txs <==> 1000 <= id < 1000 + n
    requires if n == 0 then x.ledger == EMPTY_LEDGER else Minted(x.ledger)
    ensures var r := RedoIndexed(env.rules, x, QuietBlock(n), n, true);
            && r.Done? && Minted(r.value.ledger) && forall id: Hash :: id in r.value.txs <==> 1000 <= id < 1000 + n + 1
  {
    var b := QuietBlock(n);
    QuietExec(x, n);
    QuietIds(n);
    assert b.base.inputs == [Coinbase(n)];
    hide Minted, ExecTxs, Recorded;
    RedoBlockRefines(env.rules, x.ledger, b.base, b.txs, n, b.timestamp, true);
    assert StartWork(x.ledger, b.txs, n, b.timestamp) == Done([]);
    hide RedoBlock;
    PutOne(x.txs, 1000 + n, n);
    QuietFree(x, n, chain);
  }

  lemma QuietFree(x: Indexed, n: nat, chain: seq<Hash>)
    requires |chain| == n && Recorded(x, chain) && n !in chain
    ensures n !in x.gis && Stamp(n, n) !in x.stamps
  {
  }

  lemma PutOne(m: map<Hash, TxPos>, id: Hash, h: Height)
    requires id !in m
    ensures PutTxs(m, [id], h) == Some(m[id := TxPos(h, 0)])
  {
    var ids := [id];
    assert ids[..0] == [];
    assert PutTxs(m, ids[..0], h) == Some(m);
  }

  /** A stored block on the tip, or the first one, that goes through. */
  lemma AddedOnTip(env: Env, s: Node, b: Block, cd: nat, x: Indexed)
    requires Tree(s.headers, env.genesis) && IsStored(env, s, b, Valid(cd)) && b.hash !in s.blocks && cd > s.tipDifficulty
    requires if s.chain == [] then b.hash == env.genesis else b.hash != env.genesis && s.HasTip(b.prev)
    requires var ht := if b.hash == env.genesis then 0 else s.headers[b.prev].height + 1;
             RedoIndexed(env.rules, s.indexed, b, ht, env.ChecksAt(ht)) == Done(x)
    ensures var t := StoreBlock(env, s, b, cd);
            var a := AddBlock(env, s, b, Valid(cd));
            a.Some? && a.value.node == t.(indexed := x, chain := s.chain + [b.hash], tipDifficulty := cd)
  {
    hide RedoIndexed;
  }

  lemma QuietStep(env: Env, s: Node, n: nat, keyImageOf: PublicKey -> KeyImage)
    requires Checked(env) && Inv(env, s, keyImageOf) && QuietAt(s, n)
    ensures var a := AddBlock(env, s, QuietBlock(n), Valid(n + 1)); a.Some? && QuietAt(a.value.node, n + 1)
  {
    var b := QuietBlock(n);
    HonestReplay(s.blocks, s.chain, keyImageOf);
    ReplayRecorded(s.blocks, s.chain);
    hide RedoIndexed, Minted, Replay, HonestChain, Recorded;
    QuietRedo(env, s.indexed, n, s.chain);
    assert Tree(s.headers, env.genesis);
    TipHeight(env, s);
    hide Stored, Linked;
    var x := RedoIndexed(env.rules, s.indexed, b, n, true).value;
    assert IsStored(env, s, b, Valid(n + 1));
    AddedOnTip(env, s, b, n + 1, x);
    QuietNext(env, s, n, x);
  }

  lemma TipHeight(env: Env, s: Node)
    requires Stored(env, s.headers, s.blocks) && Linked(s.headers, env.genesis, s.chain)
    ensures s.blocks.Keys == s.headers.Keys
    ensures s.chain != [] ==>
              var tip := s.chain[|s.chain| - 1]; tip in s.headers && s.headers[tip].height == |s.chain| - 1
  {
  }

  lemma QuietNext(env: Env, s: Node, n: nat, x: Indexed)
    requires Checked(env) && QuietAt(s, n) && Minted(x.ledger) && (n > 0 ==> n - 1 in s.headers)
    requires forall id: Hash :: id in x.txs <==> 1000 <= id < 1000 + n + 1
    ensures QuietAt(StoreBlock(env, s, QuietBlock(n), n + 1).(indexed := x, chain := s.chain + [n], tipDifficulty := n + 1), n + 1)
  {
    hide Minted;
  }

  /** After any number of quiet blocks. */
  lemma {:induction false} QuietStands(env: Env, n: nat, keyImageOf: PublicKey -> KeyImage)
    requires Checked(env) && Sound(env.rules, keyImageOf)
    ensures Run(env, QuietRun(n)).Some? && QuietAt(Run(env, QuietRun(n)).value, n)
    ensures Inv(env, Run(env, QuietRun(n)).value, keyImageOf)
  {
    hide AddBlock, QuietAt, QuietBlock, Inv;
    if n == 0 {
      QuietNone();
    } else {
      QuietStands(env, n - 1, keyImageOf);
      QuietStep(env, Run(env, QuietRun(n - 1)).value, n - 1, keyImageOf);
      QuietLength(n - 1);
      assert QuietRun(n)[..n - 1] == QuietRun(n - 1);
    }
    RunStored(env, QuietRun(n));
    RunReplays(env, QuietRun(n), keyImageOf);
  }

  lemma QuietNone()
    ensures QuietAt(FRESH_NODE, 0)
  {
  }

  lemma {:induction false} QuietLength(n: nat)
    ensures |QuietRun(n)| == n
  {
    if n > 0 {
      QuietLength(n - 1);
    }
  }

  /** Two transactions that both spend the first minted output. */
  function TwiceSpent(n: nat): Block {
    QuietBlock(n).(txs := [Transaction(1, 0, [KeyInput(1, [0], 9)], []), Transaction(2, 0, [KeyInput(1, [0], 9)], [])])
  }

  /** A run of nine blocks and a tenth: once the output is unlocked, the block
      that spends it twice ends the run, whatever its signatures are worth. */
  lemma RepeatEndsRun(env: Env, keyImageOf: PublicKey -> KeyImage)
    requires Checked(env) && Sound(env.rules, keyImageOf)
    ensures Run(env, QuietRun(9)).Some? && Run(env, QuietRun(9) + [Submission(TwiceSpent(9), Valid(10))]).None?
  {
    QuietStands(env, 9, keyImageOf);
    QuietLength(9);
    var s, b := Run(env, QuietRun(9)).value, TwiceSpent(9);
    assert s.chain[8] == 8;
    assert Repeats(s.indexed.ledger, b.txs, OutKey(1, 0), 9, 9, b.timestamp);
    RepeatEnds(env, s, b, 10, OutKey(1, 0), 9, keyImageOf);
    var subs := QuietRun(9) + [Submission(b, Valid(10))];
    assert subs[..|subs| - 1] == QuietRun(9);
  }
}
