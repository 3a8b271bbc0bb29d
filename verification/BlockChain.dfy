// The consensus state machine: blocks are stored, the main chain extended or
// reorganised. Its state is always the replay of the main chain.
module BlockChain {
  import opened Basics
  import opened ChainLedger
  import opened Redo
  import opened BlockRedo
  import opened HeaderTree
  import opened ChainIndex

  /** `zoneEnd` is the last checkpointed height; blocks below it are redone
      without checking inputs. */
  datatype Env = Env(rules: Rules, genesis: Hash, zoneEnd: Height) {
    predicate ChecksAt(h: Height) {
      h + 1 > zoneEnd
    }
  }

  datatype Node = Node(
    headers: Headers,
    blocks: map<Hash, Block>,
    chain: seq<Hash>,
    tipDifficulty: nat,
    indexed: Indexed)
  {
    predicate HasTip(h: Hash) {
      chain != [] && chain[|chain| - 1] == h
    }
  }

  const FRESH_NODE := Node(map[], map[], [], 0, EMPTY_INDEXED)

  datatype Action = Ban | Nothing | BroadcastAll

  // ----- replay -----

  /** Direct execution of stored blocks in chain order, from nothing. */
  ghost function Replay(blocks: map<Hash, Block>, chain: seq<Hash>): Option<Indexed> {
    if chain == [] then Some(EMPTY_INDEXED) else
    var x :- Replay(blocks, chain[..|chain| - 1]);
    var tip := chain[|chain| - 1];
    if tip !in blocks then None else ExecIndexed(x, blocks[tip], |chain| - 1)
  }

  /** Every block of the chain was honest towards the state it was redone on. */
  ghost predicate HonestChain(blocks: map<Hash, Block>, chain: seq<Hash>, keyImageOf: PublicKey -> KeyImage) {
    chain != [] ==>
      var front, tip := chain[..|chain| - 1], chain[|chain| - 1];
      && HonestChain(blocks, front, keyImageOf)
      && Replay(blocks, front).Some?
      && tip in blocks
      && Honest(Replay(blocks, front).value, blocks[tip], keyImageOf)
  }

  // ----- steps on the tip -----

  function PushChain(s: Node, h: Hash): Node
    requires h in s.headers
  {
    s.(chain := s.chain + [h], tipDifficulty := s.headers[h].cumulativeDifficulty)
  }

  /** Undo of the tip block and pop_chain. */
  function UndoTip(s: Node): Option<Node> {
    if |s.chain| <= 1 then None else
    var tip, front := s.chain[|s.chain| - 1], s.chain[..|s.chain| - 1];
    if tip !in s.blocks || s.blocks[tip].prev != front[|front| - 1] || s.blocks[tip].prev !in s.headers then None else
    var x :- UndoIndexed(s.indexed, s.blocks[tip], |front|);
    Some(s.(indexed := x, chain := front, tipDifficulty := s.headers[front[|front| - 1]].cumulativeDifficulty))
  }

  /** Redo of a stored block on the tip; a refused block changes nothing. */
  function RedoTip(env: Env, s: Node, h: Hash): Outcome<Node> {
    if h !in s.headers || h !in s.blocks then Dead else
    var ht := s.headers[h].height;
    var x :- RedoIndexed(env.rules, s.indexed, s.blocks[h], ht, env.ChecksAt(ht));
    Done(PushChain(s.(indexed := x), h))
  }

  function UndoTo(s: Node, n: nat): Option<Node>
    decreases |s.chain|
  {
    if |s.chain| <= n then Some(s) else
    var t :- UndoTip(s);
    UndoTo(t, n)
  }

  datatype Progress = Progress(node: Node, count: nat)

  /** Redoes blocks one above the other until one is refused, and counts them. */
  function RedoAll(env: Env, s: Node, hs: seq<Hash>): Option<Progress>
    decreases |hs|
  {
    if hs == [] || hs[0] !in s.blocks then Some(Progress(s, 0)) else
    match RedoTip(env, s, hs[0])
    case Dead => None
    case Refused(_) => Some(Progress(s, 0))
    case Done(t) =>
      var p :- RedoAll(env, t, hs[1..]);
      Some(Progress(p.node, p.count + 1))
  }

  // ----- invariant -----

  ghost predicate Stored(env: Env, headers: Headers, blocks: map<Hash, Block>) {
    && Tree(headers, env.genesis)
    && blocks.Keys == headers.Keys
    && (forall h :: h in blocks ==>
          && blocks[h].hash == h
          && (h != env.genesis ==> blocks[h].prev == headers[h].prev)
          && blocks[h].timestamp == headers[h].timestamp
          && CoinbaseOnly(blocks[h].base))
  }

  ghost predicate OnChain(env: Env, s: Node) {
    && Linked(s.headers, env.genesis, s.chain)
    && (s.chain == [] ==> s.headers == map[])
    && (s.chain != [] ==> s.tipDifficulty == s.headers[s.chain[|s.chain| - 1]].cumulativeDifficulty)
  }

  ghost predicate Replayed(s: Node, keyImageOf: PublicKey -> KeyImage) {
    HonestChain(s.blocks, s.chain, keyImageOf) && Replay(s.blocks, s.chain) == Some(s.indexed)
  }

  ghost predicate Inv(env: Env, s: Node, keyImageOf: PublicKey -> KeyImage) {
    Stored(env, s.headers, s.blocks) && OnChain(env, s) && Replayed(s, keyImageOf)
  }

  /** Blocks in the checkpoint zone are vouched for: each is honest towards the
      replay of its own branch. */
  ghost predicate Trusted(env: Env, headers: Headers, blocks: map<Hash, Block>, keyImageOf: PublicKey -> KeyImage) {
    Stored(env, headers, blocks) ==>
      forall h :: h in headers && !env.ChecksAt(headers[h].height) ==> TrustedBlock(env, headers, blocks, h, keyImageOf)
  }

  ghost predicate TrustedBlock(env: Env, headers: Headers, blocks: map<Hash, Block>, h: Hash, keyImageOf: PublicKey -> KeyImage)
    requires Stored(env, headers, blocks) && h in headers
  {
    var x := Replay(blocks, Below(env, headers, h));
    x.Some? ==> Honest(x.value, blocks[h], keyImageOf)
  }

  /** The branch under a block. */
  ghost function Below(env: Env, headers: Headers, h: Hash): seq<Hash>
    requires Tree(headers, env.genesis) && h in headers
  {
    assert Rooted(headers, env.genesis, h);
    if h == env.genesis then [] else Branch(headers, env.genesis, headers[h].prev)
  }

  lemma {:induction false} HonestReplay(blocks: map<Hash, Block>, chain: seq<Hash>, keyImageOf: PublicKey -> KeyImage)
    requires HonestChain(blocks, chain, keyImageOf) && Replay(blocks, chain).Some?
    ensures Replay(blocks, chain).value.ledger.Valid() && SpentRecorded(Replay(blocks, chain).value.ledger, keyImageOf)
  {
    if chain != [] {
      var front, tip := chain[..|chain| - 1], chain[|chain| - 1];
      HonestReplay(blocks, front, keyImageOf);
      ExecIndexedKeeps(Replay(blocks, front).value, blocks[tip], |front|, keyImageOf);
    }
  }

  lemma {:induction false} ReplayExtends(blocks: map<Hash, Block>, blocks': map<Hash, Block>, chain: seq<Hash>, keyImageOf: PublicKey -> KeyImage)
    requires forall i :: 0 <= i < |chain| ==> chain[i] in blocks && chain[i] in blocks' && blocks'[chain[i]] == blocks[chain[i]]
    ensures Replay(blocks', chain) == Replay(blocks, chain)
    ensures HonestChain(blocks', chain, keyImageOf) == HonestChain(blocks, chain, keyImageOf)
  {
    if chain != [] {
      ReplayExtends(blocks, blocks', chain[..|chain| - 1], keyImageOf);
    }
  }

  // ----- undo and redo keep the invariant -----

  /** Undo of a tip other than genesis cannot fail. */
  lemma UndoTipKeeps(env: Env, s: Node, keyImageOf: PublicKey -> KeyImage)
    requires Inv(env, s, keyImageOf) && |s.chain| > 1
    ensures UndoTip(s).Some? && Inv(env, UndoTip(s).value, keyImageOf)
    ensures UndoTip(s).value.chain == s.chain[..|s.chain| - 1]
    ensures UndoTip(s).value.headers == s.headers && UndoTip(s).value.blocks == s.blocks
  {
    var tip, front := s.chain[|s.chain| - 1], s.chain[..|s.chain| - 1];
    HonestReplay(s.blocks, front, keyImageOf);
    UndoIndexedInverts(Replay(s.blocks, front).value, s.blocks[tip], |front|, keyImageOf);
    assert s.headers[tip].prev == front[|front| - 1];
  }

  lemma {:induction false} UndoToKeeps(env: Env, s: Node, n: nat, keyImageOf: PublicKey -> KeyImage)
    requires Inv(env, s, keyImageOf) && 1 <= n <= |s.chain|
    ensures var r := UndoTo(s, n);
            && r.Some? && Inv(env, r.value, keyImageOf) && r.value.chain == s.chain[..n]
            && r.value.headers == s.headers && r.value.blocks == s.blocks
    decreases |s.chain|
  {
    if |s.chain| > n {
      UndoTipKeeps(env, s, keyImageOf);
      UndoToKeeps(env, UndoTip(s).value, n, keyImageOf);
      assert s.chain[..|s.chain| - 1][..n] == s.chain[..n];
    } else {
      assert s.chain[..n] == s.chain;
    }
  }

  ghost predicate FitsTip(env: Env, s: Node, h: Hash) {
    && h in s.headers
    && if s.chain == [] then h == env.genesis else h != env.genesis && s.headers[h].prev == s.chain[|s.chain| - 1]
  }

  lemma FitsTipBelow(env: Env, s: Node, h: Hash)
    requires Tree(s.headers, env.genesis) && Linked(s.headers, env.genesis, s.chain) && FitsTip(env, s, h)
    ensures Below(env, s.headers, h) == s.chain && s.headers[h].height == |s.chain|
    ensures Linked(s.headers, env.genesis, s.chain + [h])
  {
    assert Rooted(s.headers, env.genesis, h);
    if s.chain != [] {
      LinkedIsBranch(s.headers, env.genesis, s.chain);
    }
  }

  lemma ReplayNext(env: Env, s: Node, h: Hash, x: Indexed, keyImageOf: PublicKey -> KeyImage)
    requires h in s.blocks && Replayed(s, keyImageOf)
    requires ExecIndexed(s.indexed, s.blocks[h], |s.chain|) == Some(x) && Honest(s.indexed, s.blocks[h], keyImageOf)
    ensures Replay(s.blocks, s.chain + [h]) == Some(x) && HonestChain(s.blocks, s.chain + [h], keyImageOf)
  {
    var c := s.chain + [h];
    assert c[..|c| - 1] == s.chain;
  }

  lemma RedoTipKeeps(env: Env, s: Node, h: Hash, keyImageOf: PublicKey -> KeyImage)
    requires Stored(env, s.headers, s.blocks) && Linked(s.headers, env.genesis, s.chain) && Replayed(s, keyImageOf)
    requires Sound(env.rules, keyImageOf) && Trusted(env, s.headers, s.blocks, keyImageOf)
    requires FitsTip(env, s, h)
    ensures var r := RedoTip(env, s, h);
            r.Done? ==> Inv(env, r.value, keyImageOf) && r.value.chain == s.chain + [h]
                        && r.value.headers == s.headers && r.value.blocks == s.blocks
  {
    var ht := s.headers[h].height;
    FitsTipBelow(env, s, h);
    HonestReplay(s.blocks, s.chain, keyImageOf);
    if !env.ChecksAt(ht) {
      assert TrustedBlock(env, s.headers, s.blocks, h, keyImageOf);
    }
    RedoIndexedRefines(env.rules, s.indexed, s.blocks[h], ht, env.ChecksAt(ht), keyImageOf);
    var x := RedoIndexed(env.rules, s.indexed, s.blocks[h], ht, env.ChecksAt(ht));
    if x.Done? {
      ReplayNext(env, s, h, x.value, keyImageOf);
    }
  }

  /** A stretch of blocks each above the one before, the first above the tip. */
  ghost predicate Stretch(env: Env, s: Node, hs: seq<Hash>) {
    && s.chain != []
    && (forall i :: 0 <= i < |hs| ==> hs[i] in s.headers && hs[i] in s.blocks && hs[i] != env.genesis)
    && (hs != [] ==> s.headers[hs[0]].prev == s.chain[|s.chain| - 1])
    && (forall i :: 0 < i < |hs| ==> s.headers[hs[i]].prev == hs[i - 1])
  }

  lemma StretchNext(env: Env, s: Node, t: Node, hs: seq<Hash>)
    requires Stretch(env, s, hs) && hs != []
    requires t.headers == s.headers && t.blocks == s.blocks && t.chain == s.chain + [hs[0]]
    ensures Stretch(env, t, hs[1..])
  {
  }

  ghost predicate Ready(env: Env, s: Node, hs: seq<Hash>, keyImageOf: PublicKey -> KeyImage) {
    && Inv(env, s, keyImageOf) && Sound(env.rules, keyImageOf) && Trusted(env, s.headers, s.blocks, keyImageOf)
    && Stretch(env, s, hs)
  }

  /** The first `p.count` blocks were put on the chain of `s`. */
  ghost predicate RedoneUpTo(env: Env, s: Node, p: Progress, hs: seq<Hash>, keyImageOf: PublicKey -> KeyImage) {
    && p.count <= |hs|
    && Inv(env, p.node, keyImageOf) && p.node.headers == s.headers && p.node.blocks == s.blocks
    && p.node.chain == s.chain + hs[..p.count]
  }

  lemma ReadyNext(env: Env, s: Node, t: Node, hs: seq<Hash>, keyImageOf: PublicKey -> KeyImage)
    requires Ready(env, s, hs, keyImageOf) && hs != [] && Inv(env, t, keyImageOf)
    requires t.headers == s.headers && t.blocks == s.blocks && t.chain == s.chain + [hs[0]]
    ensures Ready(env, t, hs[1..], keyImageOf)
  {
    StretchNext(env, s, t, hs);
  }

  lemma AppendTake(chain: seq<Hash>, hs: seq<Hash>, n: nat)
    requires hs != [] && n < |hs|
    ensures chain + [hs[0]] + hs[1..][..n] == chain + hs[..n + 1]
  {
  }

  lemma RedoneNone(env: Env, s: Node, hs: seq<Hash>, keyImageOf: PublicKey -> KeyImage)
    requires Ready(env, s, hs, keyImageOf)
    ensures RedoneUpTo(env, s, Progress(s, 0), hs, keyImageOf)
  {
    assert s.chain + hs[..0] == s.chain;
  }

  lemma RedoneNext(env: Env, s: Node, t: Node, p: Progress, hs: seq<Hash>, keyImageOf: PublicKey -> KeyImage)
    requires hs != [] && t.headers == s.headers && t.blocks == s.blocks && t.chain == s.chain + [hs[0]]
    requires RedoneUpTo(env, t, p, hs[1..], keyImageOf)
    ensures RedoneUpTo(env, s, Progress(p.node, p.count + 1), hs, keyImageOf)
  {
    AppendTake(s.chain, hs, p.count);
  }

  lemma ReadyTip(env: Env, s: Node, hs: seq<Hash>, t: Node, keyImageOf: PublicKey -> KeyImage)
    requires Ready(env, s, hs, keyImageOf) && hs != [] && RedoTip(env, s, hs[0]) == Done(t)
    ensures Ready(env, t, hs[1..], keyImageOf)
    ensures t.headers == s.headers && t.blocks == s.blocks && t.chain == s.chain + [hs[0]]
  {
    hide RedoTip;
    assert s.headers[hs[0]].prev == s.chain[|s.chain| - 1];
    RedoTipKeeps(env, s, hs[0], keyImageOf);
    ReadyNext(env, s, t, hs, keyImageOf);
  }

  lemma {:induction false} RedoAllKeeps(env: Env, s: Node, hs: seq<Hash>, keyImageOf: PublicKey -> KeyImage)
    requires Ready(env, s, hs, keyImageOf)
    ensures RedoAll(env, s, hs).Some? ==> RedoneUpTo(env, s, RedoAll(env, s, hs).value, hs, keyImageOf)
    decreases |hs|
  {
    hide RedoTip, Ready, RedoneUpTo;
    RedoneNone(env, s, hs, keyImageOf);
    if hs != [] && RedoTip(env, s, hs[0]).Done? {
      var t := RedoTip(env, s, hs[0]).value;
      ReadyTip(env, s, hs, t, keyImageOf);
      RedoAllKeeps(env, t, hs[1..], keyImageOf);
      if RedoAll(env, t, hs[1..]).Some? {
        RedoneNext(env, s, t, RedoAll(env, t, hs[1..]).value, hs, keyImageOf);
      }
    }
  }

  // ----- add_block -----

  /** Outcome of check_standalone_consensus. */
  datatype Verdict = Invalid | Valid(cumulativeDifficulty: nat)

  datatype Added = Added(node: Node, action: Action)

  function CommonPrefix(a: seq<Hash>, b: seq<Hash>): (n: nat)
    ensures n <= |a| && n <= |b| && a[..n] == b[..n]
    ensures n < |a| && n < |b| ==> a[n] != b[n]
  {
    if a == [] || b == [] || a[0] != b[0] then 0 else 1 + CommonPrefix(a[1..], b[1..])
  }

  /** Undo to the fork with the target's branch, then redo that branch. */
  ghost function Reorganize(env: Env, s: Node, target: Hash): Option<Progress>
    requires Tree(s.headers, env.genesis) && target in s.headers
  {
    var branch := Branch(s.headers, env.genesis, target);
    var n := CommonPrefix(s.chain, branch);
    if exists h :: h in branch[n..] && h !in s.blocks then Some(Progress(s, 0)) else
    var t :- UndoTo(s, n);
    RedoAll(env, t, branch[n..])
  }

  function SingleCoinbase(tx: Transaction): bool {
    |tx.inputs| == 1 && tx.inputs[0].Coinbase?
  }

  /** Writing the block and its header. */
  function StoreBlock(env: Env, s: Node, b: Block, cumulativeDifficulty: nat): Node
    requires b.hash != env.genesis ==> b.prev in s.headers
  {
    var height := if b.hash == env.genesis then 0 else s.headers[b.prev].height + 1;
    s.(headers := s.headers[b.hash := Header(b.hash, b.prev, height, b.timestamp, cumulativeDifficulty)],
       blocks := s.blocks[b.hash := b])
  }

  function Report(s: Node, h: Hash): Added {
    Added(s, if s.HasTip(h) then BroadcastAll else Nothing)
  }

  /** What is done with a block that was just stored. */
  ghost function Consider(env: Env, t: Node, b: Block, cd: nat): Option<Added>
    requires Tree(t.headers, env.genesis) && b.hash in t.headers
  {
    if b.hash == env.genesis then
      match RedoTip(env, t, b.hash)
      case Done(u) => Some(Report(u, b.hash))
      case _ => None
    else if cd <= t.tipDifficulty then Some(Report(t, b.hash))
    else if t.HasTip(b.prev) then
      match RedoTip(env, t, b.hash)
      case Done(u) => Some(Report(u, b.hash))
      case Refused(_) => Some(Added(t, Ban))
      case Dead => None
    else
      var p :- Reorganize(env, t, b.hash);
      Some(Report(p.node, b.hash))
  }

  /** None is a failed invariant or database error: the run ends. */
  ghost function AddBlock(env: Env, s: Node, b: Block, verdict: Verdict): Option<Added>
    requires Tree(s.headers, env.genesis)
  {
    if b.hash in s.headers && b.hash in s.blocks then Some(Added(s, Nothing)) else
    if b.hash != env.genesis && b.prev !in s.headers then Some(Added(s, Nothing)) else
    if verdict.Invalid? || !SingleCoinbase(b.base) then Some(Added(s, Ban)) else
    if b.hash in s.headers then None else
    var cd := verdict.cumulativeDifficulty;
    StoreKeepsTree(env, s, b, cd);
    Consider(env, StoreBlock(env, s, b, cd), b, cd)
  }

  lemma StoreKeepsTree(env: Env, s: Node, b: Block, cd: nat)
    requires Tree(s.headers, env.genesis) && b.hash !in s.headers
    requires b.hash != env.genesis ==> b.prev in s.headers
    ensures Tree(StoreBlock(env, s, b, cd).headers, env.genesis)
  {
    var t := StoreBlock(env, s, b, cd).headers;
    forall h | h in t
      ensures Rooted(t, env.genesis, h)
    {
      if h in s.headers {
        assert Rooted(s.headers, env.genesis, h);
      }
    }
  }

  // ----- storing a block keeps the invariant -----

  lemma StoreStored(env: Env, s: Node, b: Block, cd: nat)
    requires Stored(env, s.headers, s.blocks) && b.hash !in s.headers && SingleCoinbase(b.base)
    requires b.hash != env.genesis ==> b.prev in s.headers
    ensures var t := StoreBlock(env, s, b, cd); Stored(env, t.headers, t.blocks)
  {
    StoreKeepsTree(env, s, b, cd);
    assert CoinbaseOnly(b.base);
  }

  lemma StoreReplayed(env: Env, s: Node, b: Block, cd: nat, keyImageOf: PublicKey -> KeyImage)
    requires Linked(s.headers, env.genesis, s.chain) && s.headers.Keys == s.blocks.Keys && Replayed(s, keyImageOf)
    requires b.hash !in s.headers && (b.hash != env.genesis ==> b.prev in s.headers)
    ensures var t := StoreBlock(env, s, b, cd);
            Linked(t.headers, env.genesis, t.chain) && Replayed(t, keyImageOf)
  {
    ReplayExtends(s.blocks, StoreBlock(env, s, b, cd).blocks, s.chain, keyImageOf);
  }

  lemma StoreKeeps(env: Env, s: Node, b: Block, cd: nat, keyImageOf: PublicKey -> KeyImage)
    requires Inv(env, s, keyImageOf) && b.hash !in s.headers && SingleCoinbase(b.base)
    requires b.hash != env.genesis ==> b.prev in s.headers
    ensures var t := StoreBlock(env, s, b, cd);
            && Stored(env, t.headers, t.blocks) && Linked(t.headers, env.genesis, t.chain) && Replayed(t, keyImageOf)
            && (s.chain != [] ==> Inv(env, t, keyImageOf))
  {
    StoreStored(env, s, b, cd);
    StoreReplayed(env, s, b, cd, keyImageOf);
    hide Stored, Replayed;
  }

  // ----- a reorganisation keeps the invariant -----

  lemma LinkedStretch(t: Headers, genesis: Hash, branch: seq<Hash>, n: nat)
    requires Linked(t, genesis, branch) && 1 <= n <= |branch|
    ensures var hs := branch[n..];
            && (forall i :: 0 <= i < |hs| ==> hs[i] in t && hs[i] != genesis)
            && (hs != [] ==> t[hs[0]].prev == branch[n - 1])
            && (forall i :: 0 < i < |hs| ==> t[hs[i]].prev == hs[i - 1])
  {
  }

  /** The rest of a branch above the common prefix can be redone there. */
  lemma BranchStretch(env: Env, s: Node, target: Hash, n: nat)
    requires Stored(env, s.headers, s.blocks) && target in s.headers
    requires 1 <= n <= |Branch(s.headers, env.genesis, target)|
    requires s.chain == Branch(s.headers, env.genesis, target)[..n]
    ensures Stretch(env, s, Branch(s.headers, env.genesis, target)[n..])
  {
    BranchLinked(s.headers, env.genesis, target);
    LinkedStretch(s.headers, env.genesis, Branch(s.headers, env.genesis, target), n);
  }

  lemma ForkAboveGenesis(env: Env, s: Node, target: Hash)
    requires Tree(s.headers, env.genesis) && target in s.headers
    requires Linked(s.headers, env.genesis, s.chain) && s.chain != []
    ensures CommonPrefix(s.chain, Branch(s.headers, env.genesis, target)) >= 1
  {
    BranchLinked(s.headers, env.genesis, target);
  }

  lemma ReadyAtFork(env: Env, s: Node, target: Hash, n: nat, keyImageOf: PublicKey -> KeyImage)
    requires Inv(env, s, keyImageOf) && target in s.headers
    requires Sound(env.rules, keyImageOf) && Trusted(env, s.headers, s.blocks, keyImageOf)
    requires 1 <= n <= |Branch(s.headers, env.genesis, target)|
    requires s.chain == Branch(s.headers, env.genesis, target)[..n]
    ensures Ready(env, s, Branch(s.headers, env.genesis, target)[n..], keyImageOf)
  {
    BranchStretch(env, s, target, n);
    hide Inv, Trusted, Sound, Stretch;
  }

  ghost predicate Reorganized(env: Env, s: Node, target: Hash, p: Progress, keyImageOf: PublicKey -> KeyImage)
    requires Tree(s.headers, env.genesis) && target in s.headers
  {
    var branch := Branch(s.headers, env.genesis, target);
    && Inv(env, p.node, keyImageOf) && p.node.headers == s.headers && p.node.blocks == s.blocks
    && CommonPrefix(s.chain, branch) + p.count <= |branch|
    && p.node.chain == branch[..CommonPrefix(s.chain, branch) + p.count]
  }

  lemma TakeMore(branch: seq<Hash>, n: nat, m: nat)
    requires n + m <= |branch|
    ensures branch[..n] + branch[n..][..m] == branch[..n + m]
  {
  }

  lemma BranchHasBlocks(env: Env, s: Node, target: Hash, n: nat)
    requires Stored(env, s.headers, s.blocks) && target in s.headers
    requires n <= |Branch(s.headers, env.genesis, target)|
    ensures forall h :: h in Branch(s.headers, env.genesis, target)[n..] ==> h in s.blocks
  {
    BranchLinked(s.headers, env.genesis, target);
  }

  lemma RedoneIsReorganized(env: Env, s: Node, t: Node, target: Hash, p: Progress, keyImageOf: PublicKey -> KeyImage)
    requires Tree(s.headers, env.genesis) && target in s.headers
    requires t.headers == s.headers && t.blocks == s.blocks
    requires var branch := Branch(s.headers, env.genesis, target);
             var n := CommonPrefix(s.chain, branch);
             t.chain == branch[..n] && RedoneUpTo(env, t, p, branch[n..], keyImageOf)
    ensures Reorganized(env, s, target, p, keyImageOf)
  {
    hide Inv;
    var branch := Branch(s.headers, env.genesis, target);
    TakeMore(branch, CommonPrefix(s.chain, branch), p.count);
  }

  /** Undoing down to the fork cannot fail. */
  lemma UndoToFork(env: Env, s: Node, target: Hash, keyImageOf: PublicKey -> KeyImage)
    requires Inv(env, s, keyImageOf) && s.chain != [] && target in s.headers
    requires Sound(env.rules, keyImageOf) && Trusted(env, s.headers, s.blocks, keyImageOf)
    ensures var branch := Branch(s.headers, env.genesis, target);
            var n := CommonPrefix(s.chain, branch);
            var t := UndoTo(s, n);
            && t.Some? && t.value.headers == s.headers && t.value.blocks == s.blocks
            && t.value.chain == branch[..n] && Ready(env, t.value, branch[n..], keyImageOf)
  {
    hide Stretch;
    var n := CommonPrefix(s.chain, Branch(s.headers, env.genesis, target));
    ForkAboveGenesis(env, s, target);
    UndoToKeeps(env, s, n, keyImageOf);
    ReadyAtFork(env, UndoTo(s, n).value, target, n, keyImageOf);
  }

  /** A reorganisation ends on the target's branch, wherever it stopped, in the
      state replayed along it. */
  lemma ReorganizeKeeps(env: Env, s: Node, target: Hash, keyImageOf: PublicKey -> KeyImage)
    requires Inv(env, s, keyImageOf) && s.chain != [] && target in s.headers
    requires Sound(env.rules, keyImageOf) && Trusted(env, s.headers, s.blocks, keyImageOf)
    ensures Reorganize(env, s, target).Some? ==>
              Reorganized(env, s, target, Reorganize(env, s, target).value, keyImageOf)
  {
    var branch := Branch(s.headers, env.genesis, target);
    var n := CommonPrefix(s.chain, branch);
    UndoToFork(env, s, target, keyImageOf);
    BranchHasBlocks(env, s, target, n);
    hide Inv, UndoTo, RedoAll, Ready, RedoneUpTo, Reorganized, Trusted, Sound;
    var t := UndoTo(s, n).value;
    RedoAllKeeps(env, t, branch[n..], keyImageOf);
    var r := RedoAll(env, t, branch[n..]);
    if r.Some? {
      RedoneIsReorganized(env, s, t, target, r.value, keyImageOf);
    }
  }

  // ----- every step and every run keeps the invariant -----

  lemma AddBlockKeeps(env: Env, s: Node, b: Block, verdict: Verdict, keyImageOf: PublicKey -> KeyImage)
    requires Inv(env, s, keyImageOf) && Sound(env.rules, keyImageOf)
    requires AddBlock(env, s, b, verdict).Some?
    requires var t := AddBlock(env, s, b, verdict).value.node; Trusted(env, t.headers, t.blocks, keyImageOf)
    ensures Inv(env, AddBlock(env, s, b, verdict).value.node, keyImageOf)
  {
    assert Tree(s.headers, env.genesis);
    hide RedoTip, Reorganize, Trusted, Sound, Stored, Replayed;
    if AddBlock(env, s, b, verdict).value.node != s {
      var cd := verdict.cumulativeDifficulty;
      StoreKeeps(env, s, b, cd, keyImageOf);
      StoreKeepsTree(env, s, b, cd);
      var t := StoreBlock(env, s, b, cd);
      StoredChain(env, s);
      if b.hash == env.genesis || (cd > t.tipDifficulty && t.HasTip(b.prev)) {
        RedoTipSame(env, t, b.hash);
        RedoTipKeeps(env, t, b.hash, keyImageOf);
      } else if cd > t.tipDifficulty {
        ReorganizeSame(env, t, b.hash);
        ReorganizeKeeps(env, t, b.hash, keyImageOf);
      }
    }
  }

  /** Until genesis is there nothing else is. */
  lemma StoredChain(env: Env, s: Node)
    requires OnChain(env, s) && Tree(s.headers, env.genesis)
    ensures env.genesis in s.headers <==> s.chain != []
    ensures s.chain == [] ==> s.headers == map[]
  {
  }

  lemma RedoTipSame(env: Env, s: Node, h: Hash)
    ensures RedoTip(env, s, h).Done? ==>
              RedoTip(env, s, h).value.headers == s.headers && RedoTip(env, s, h).value.blocks == s.blocks
  {
  }

  lemma {:induction false} UndoToSame(s: Node, n: nat)
    ensures UndoTo(s, n).Some? ==> UndoTo(s, n).value.headers == s.headers && UndoTo(s, n).value.blocks == s.blocks
    decreases |s.chain|
  {
    if |s.chain| > n && UndoTip(s).Some? {
      UndoToSame(UndoTip(s).value, n);
    }
  }

  lemma {:induction false} RedoAllSame(env: Env, s: Node, hs: seq<Hash>)
    ensures RedoAll(env, s, hs).Some? ==>
              RedoAll(env, s, hs).value.node.headers == s.headers && RedoAll(env, s, hs).value.node.blocks == s.blocks
    decreases |hs|
  {
    if hs != [] && RedoTip(env, s, hs[0]).Done? {
      RedoTipSame(env, s, hs[0]);
      RedoAllSame(env, RedoTip(env, s, hs[0]).value, hs[1..]);
    }
  }

  lemma ReorganizeSame(env: Env, s: Node, target: Hash)
    requires Tree(s.headers, env.genesis) && target in s.headers
    ensures Reorganize(env, s, target).Some? ==>
              Reorganize(env, s, target).value.node.headers == s.headers && Reorganize(env, s, target).value.node.blocks == s.blocks
  {
    var branch := Branch(s.headers, env.genesis, target);
    var n := CommonPrefix(s.chain, branch);
    UndoToSame(s, n);
    if UndoTo(s, n).Some? {
      RedoAllSame(env, UndoTo(s, n).value, branch[n..]);
    }
  }

  // ----- runs -----

  datatype Submission = Submission(block: Block, verdict: Verdict)

  lemma AddBlockTree(env: Env, s: Node, b: Block, verdict: Verdict)
    requires Tree(s.headers, env.genesis) && AddBlock(env, s, b, verdict).Some?
    ensures var t := AddBlock(env, s, b, verdict).value.node;
            && Tree(t.headers, env.genesis)
            && (forall h :: h in s.headers ==> h in t.headers && t.headers[h] == s.headers[h])
            && (s.headers.Keys == s.blocks.Keys ==>
                  forall h :: h in s.blocks ==> h in t.blocks && t.blocks[h] == s.blocks[h])
  {
    hide RedoTip, Reorganize;
    if AddBlock(env, s, b, verdict).value.node != s {
      var cd := verdict.cumulativeDifficulty;
      StoreKeepsTree(env, s, b, cd);
      var t := StoreBlock(env, s, b, cd);
      RedoTipSame(env, t, b.hash);
      ReorganizeSame(env, t, b.hash);
    }
  }

  /** Blocks handed to add_block one after the other on a fresh node; None when
      the run ended early. */
  ghost function Run(env: Env, subs: seq<Submission>): (r: Option<Node>)
    ensures r.Some? ==> Tree(r.value.headers, env.genesis)
  {
    if subs == [] then Some(FRESH_NODE) else
    var s :- Run(env, subs[..|subs| - 1]);
    var sub := subs[|subs| - 1];
    var a :- AddBlock(env, s, sub.block, sub.verdict);
    AddBlockTree(env, s, sub.block, sub.verdict);
    Some(a.node)
  }

  lemma TrustedEarlier(env: Env, s: Node, t: Node, keyImageOf: PublicKey -> KeyImage)
    requires Stored(env, s.headers, s.blocks) && Stored(env, t.headers, t.blocks)
    requires forall h :: h in s.headers ==> h in t.headers && t.headers[h] == s.headers[h]
    requires forall h :: h in s.blocks ==> h in t.blocks && t.blocks[h] == s.blocks[h]
    requires Trusted(env, t.headers, t.blocks, keyImageOf)
    ensures Trusted(env, s.headers, s.blocks, keyImageOf)
  {
    forall h | h in s.headers && !env.ChecksAt(s.headers[h].height)
      ensures TrustedBlock(env, s.headers, s.blocks, h, keyImageOf)
    {
      assert TrustedBlock(env, t.headers, t.blocks, h, keyImageOf);
      assert Rooted(s.headers, env.genesis, h);
      if h != env.genesis {
        BranchExtends(s.headers, t.headers, env.genesis, s.headers[h].prev);
        BranchLinked(s.headers, env.genesis, s.headers[h].prev);
      }
      ReplayExtends(s.blocks, t.blocks, Below(env, s.headers, h), keyImageOf);
    }
  }

  lemma AddBlockStored(env: Env, s: Node, b: Block, verdict: Verdict)
    requires Stored(env, s.headers, s.blocks) && AddBlock(env, s, b, verdict).Some?
    ensures var t := AddBlock(env, s, b, verdict).value.node; Stored(env, t.headers, t.blocks)
  {
    hide RedoTip, Reorganize;
    if AddBlock(env, s, b, verdict).value.node != s {
      var cd := verdict.cumulativeDifficulty;
      StoreStored(env, s, b, cd);
      var t := StoreBlock(env, s, b, cd);
      RedoTipSame(env, t, b.hash);
      ReorganizeSame(env, t, b.hash);
    }
  }

  lemma {:induction false} RunStored(env: Env, subs: seq<Submission>)
    requires Run(env, subs).Some?
    ensures Stored(env, Run(env, subs).value.headers, Run(env, subs).value.blocks)
  {
    if subs != [] {
      hide AddBlock, Stored;
      RunStored(env, subs[..|subs| - 1]);
      var sub := subs[|subs| - 1];
      AddBlockStored(env, Run(env, subs[..|subs| - 1]).value, sub.block, sub.verdict);
    } else {
      assert Stored(env, map[], map[]);
    }
  }

  /** After any sequence of add_block calls, reorganisations that stopped
      halfway included, ledger and indexes are the direct replay of the blocks
      from genesis to the tip, and the main chain is the tip's branch. */
  lemma {:induction false} RunReplays(env: Env, subs: seq<Submission>, keyImageOf: PublicKey -> KeyImage)
    requires Sound(env.rules, keyImageOf) && Run(env, subs).Some?
    requires Trusted(env, Run(env, subs).value.headers, Run(env, subs).value.blocks, keyImageOf)
    ensures var s := Run(env, subs).value;
            && Inv(env, s, keyImageOf)
            && Replay(s.blocks, s.chain) == Some(s.indexed)
            && (s.chain != [] ==>
                  s.chain[|s.chain| - 1] in s.headers && s.chain == Branch(s.headers, env.genesis, s.chain[|s.chain| - 1]))
  {
    var s := Run(env, subs).value;
    if subs != [] {
      hide AddBlock, Stored, Trusted, OnChain, Replayed, Sound;
      var p, sub := Run(env, subs[..|subs| - 1]).value, subs[|subs| - 1];
      RunStored(env, subs[..|subs| - 1]);
      RunStored(env, subs);
      RunGrows(env, p, sub);
      TrustedEarlier(env, p, s, keyImageOf);
      RunReplays(env, subs[..|subs| - 1], keyImageOf);
      AddBlockKeeps(env, p, sub.block, sub.verdict, keyImageOf);
    }
    InvChain(env, s, keyImageOf);
  }

  lemma RunGrows(env: Env, p: Node, sub: Submission)
    requires Stored(env, p.headers, p.blocks) && AddBlock(env, p, sub.block, sub.verdict).Some?
    ensures var s := AddBlock(env, p, sub.block, sub.verdict).value.node;
            && (forall h :: h in p.headers ==> h in s.headers && s.headers[h] == p.headers[h])
            && (forall h :: h in p.blocks ==> h in s.blocks && s.blocks[h] == p.blocks[h])
  {
    hide AddBlock;
    AddBlockTree(env, p, sub.block, sub.verdict);
  }

  lemma InvChain(env: Env, s: Node, keyImageOf: PublicKey -> KeyImage)
    requires Inv(env, s, keyImageOf)
    ensures Replay(s.blocks, s.chain) == Some(s.indexed)
    ensures s.chain != [] ==>
              Tree(s.headers, env.genesis) && s.chain[|s.chain| - 1] in s.headers
              && s.chain == Branch(s.headers, env.genesis, s.chain[|s.chain| - 1])
  {
    if s.chain != [] {
      LinkedIsBranch(s.headers, env.genesis, s.chain);
    }
  }

  /** Two nodes whose main chains hold the same blocks are in the same state,
      however they got there. */
  lemma StateFollowsChain(env: Env, subs: seq<Submission>, subs': seq<Submission>, keyImageOf: PublicKey -> KeyImage)
    requires Sound(env.rules, keyImageOf) && Run(env, subs).Some? && Run(env, subs').Some?
    requires Trusted(env, Run(env, subs).value.headers, Run(env, subs).value.blocks, keyImageOf)
    requires Trusted(env, Run(env, subs').value.headers, Run(env, subs').value.blocks, keyImageOf)
    requires Run(env, subs).value.chain == Run(env, subs').value.chain
    requires var s, s' := Run(env, subs).value, Run(env, subs').value;
             forall h :: h in s.chain && h in s.blocks && h in s'.blocks ==> s'.blocks[h] == s.blocks[h]
    ensures Run(env, subs).value.indexed == Run(env, subs').value.indexed
  {
    var s, s' := Run(env, subs).value, Run(env, subs').value;
    RunReplays(env, subs, keyImageOf);
    RunReplays(env, subs', keyImageOf);
    ReplayExtends(s.blocks, s'.blocks, s.chain, keyImageOf);
  }

  /** Where a step can leave the tip: unmoved; on the new block, with more work
      than before; or, after a reorganisation that stopped, below the new block
      on its branch. */
  ghost predicate TipMoved(env: Env, s: Node, t: Node, h: Hash)
    requires Tree(t.headers, env.genesis)
  {
    || t.chain == s.chain
    || (t.HasTip(h) && (s.chain != [] ==> t.tipDifficulty > s.tipDifficulty))
    || (h in t.headers && |t.chain| <= t.headers[h].height && t.chain == Branch(t.headers, env.genesis, h)[..|t.chain|])
  }

  lemma TipReorganized(env: Env, s: Node, h: Hash, p: Progress, keyImageOf: PublicKey -> KeyImage)
    requires Tree(s.headers, env.genesis) && h in s.headers && Reorganized(env, s, h, p, keyImageOf)
    requires s.headers[h].cumulativeDifficulty > s.tipDifficulty
    ensures TipMoved(env, s, p.node, h)
  {
    hide Stored, Replayed;
    var branch := Branch(s.headers, env.genesis, h);
    if |p.node.chain| == |branch| {
      assert p.node.chain == branch;
    }
  }

  lemma AddBlockTip(env: Env, s: Node, b: Block, verdict: Verdict, keyImageOf: PublicKey -> KeyImage)
    requires Inv(env, s, keyImageOf) && Sound(env.rules, keyImageOf)
    requires AddBlock(env, s, b, verdict).Some?
    requires var t := AddBlock(env, s, b, verdict).value.node; Trusted(env, t.headers, t.blocks, keyImageOf)
    ensures Tree(AddBlock(env, s, b, verdict).value.node.headers, env.genesis)
    ensures TipMoved(env, s, AddBlock(env, s, b, verdict).value.node, b.hash)
  {
    assert Tree(s.headers, env.genesis);
    hide Trusted, Sound, Stored, Replayed, Reorganized, RedoTip, Reorganize;
    AddBlockTree(env, s, b, verdict);
    if AddBlock(env, s, b, verdict).value.node != s {
      var cd := verdict.cumulativeDifficulty;
      StoreKeeps(env, s, b, cd, keyImageOf);
      StoreKeepsTree(env, s, b, cd);
      var t := StoreBlock(env, s, b, cd);
      StoredChain(env, s);
      if b.hash == env.genesis || (cd > t.tipDifficulty && t.HasTip(b.prev)) {
        TipRedone(env, t, b.hash);
      } else if cd > t.tipDifficulty {
        ReorganizeSame(env, t, b.hash);
        ReorganizeKeeps(env, t, b.hash, keyImageOf);
        var p := Reorganize(env, t, b.hash).value;
        TipReorganized(env, t, b.hash, p, keyImageOf);
        assert TipMoved(env, s, p.node, b.hash);
      }
    }
  }

  lemma TipRedone(env: Env, s: Node, h: Hash)
    ensures RedoTip(env, s, h).Done? ==>
              var t := RedoTip(env, s, h).value;
              t.HasTip(h) && h in s.headers && t.tipDifficulty == s.headers[h].cumulativeDifficulty
  {
  }
}
