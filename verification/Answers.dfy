// What a client's answer does to the window: which cells its blocks serve,
// which blocks go to the preparing threads, and what of the window stays.
module Answers {
  import opened Basics
  import opened Download

  /** A cell downloading a block from a client. */
  predicate Awaits(c: Cell, who: Client, bid: Hash) {
    c.status == Downloading && c.client == Some(who) && c.bid == bid
  }

  // ----- blocks -----

  /** The first cell that awaits the block is done with the client. */
  function ServeOne(cells: seq<Cell>, who: Client, bid: Hash): (r: seq<Cell>)
    ensures |r| == |cells|
  {
    if cells == [] then []
    else if Awaits(cells[0], who, bid) then [cells[0].(client := None, status := Preparing)] + cells[1..]
    else [cells[0]] + ServeOne(cells[1..], who, bid)
  }

  predicate Asked(cells: seq<Cell>, who: Client, bid: Hash) {
    exists i :: 0 <= i < |cells| && Awaits(cells[i], who, bid)
  }

  function Served(cells: seq<Cell>, who: Client, blocks: seq<Option<Block>>): (r: seq<Cell>)
    ensures |r| == |cells|
    decreases |blocks|
  {
    if blocks == [] || blocks[0].None? then cells else Served(ServeOne(cells, who, blocks[0].value.bid), who, blocks[1..])
  }

  /** The blocks that serve a cell, up to the first that could not be parsed. */
  function Queued(cells: seq<Cell>, who: Client, blocks: seq<Option<Block>>): seq<Block>
    decreases |blocks|
  {
    if blocks == [] || blocks[0].None? then [] else
    var b := blocks[0].value;
    (if Asked(cells, who, b.bid) then [b] else []) + Queued(ServeOne(cells, who, b.bid), who, blocks[1..])
  }

  lemma {:induction false} ServeOneIs(cells: seq<Cell>, who: Client, bid: Hash, found: Option<nat>)
    requires found.Some? ==> found.value < |cells| && Awaits(cells[found.value], who, bid)
                             && forall j :: 0 <= j < found.value ==> !Awaits(cells[j], who, bid)
    requires found.None? ==> forall j :: 0 <= j < |cells| ==> !Awaits(cells[j], who, bid)
    ensures found.Some? <==> Asked(cells, who, bid)
    ensures ServeOne(cells, who, bid)
            == if found.Some? then cells[found.value := cells[found.value].(client := None, status := Preparing)] else cells
    decreases |cells|
  {
    if cells != [] && !Awaits(cells[0], who, bid) {
      assert forall j :: 0 <= j < |cells[1..]| ==> cells[1..][j] == cells[j + 1];
      ServeOneIs(cells[1..], who, bid, if found.Some? then Some(found.value - 1) else None);
    }
  }

  // ----- that these are the right ones -----

  /** Up to the first that could not be parsed. */
  function Parsed(blocks: seq<Option<Block>>): seq<Block>
    decreases |blocks|
  {
    if blocks == [] || blocks[0].None? then [] else [blocks[0].value] + Parsed(blocks[1..])
  }

  function OfHash(bs: seq<Block>, k: Hash): seq<Block>
    decreases |bs|
  {
    if bs == [] then [] else (if bs[0].bid == k then [bs[0]] else []) + OfHash(bs[1..], k)
  }

  function AwaitCount(cells: seq<Cell>, who: Client, k: Hash): nat
    decreases |cells|
  {
    if cells == [] then 0 else (if Awaits(cells[0], who, k) then 1 else 0) + AwaitCount(cells[1..], who, k)
  }

  lemma {:induction false} ServeOneCount(cells: seq<Cell>, who: Client, bid: Hash, k: Hash)
    ensures Asked(cells, who, bid) <==> AwaitCount(cells, who, bid) > 0
    ensures AwaitCount(ServeOne(cells, who, bid), who, k)
            == AwaitCount(cells, who, k) - if k == bid && Asked(cells, who, bid) then 1 else 0
    decreases |cells|
  {
    if cells != [] {
      ServeOneCount(cells[1..], who, bid, k);
      AskedRest(cells, who, bid);
      var r := ServeOne(cells, who, bid);
      if Awaits(cells[0], who, bid) {
        assert r[1..] == cells[1..];
      } else {
        assert r[1..] == ServeOne(cells[1..], who, bid);
      }
    }
  }

  lemma AskedRest(cells: seq<Cell>, who: Client, bid: Hash)
    requires cells != []
    ensures Asked(cells, who, bid) <==> Awaits(cells[0], who, bid) || Asked(cells[1..], who, bid)
  {
    if Asked(cells, who, bid) && !Awaits(cells[0], who, bid) {
      var i :| 0 <= i < |cells| && Awaits(cells[i], who, bid);
      assert cells[1..][i - 1] == cells[i];
    }
    if Asked(cells[1..], who, bid) {
      var i :| 0 <= i < |cells[1..]| && Awaits(cells[1..][i], who, bid);
      assert cells[i + 1] == cells[1..][i];
    }
  }

  /** Of the blocks of one hash the first ones are queued, one for each cell that
      awaits it; and as many cells await it no longer. */
  lemma {:induction false} QueuedAre(cells: seq<Cell>, who: Client, blocks: seq<Option<Block>>, k: Hash)
    ensures var n := Min(AwaitCount(cells, who, k), |OfHash(Parsed(blocks), k)|);
            && OfHash(Queued(cells, who, blocks), k) == OfHash(Parsed(blocks), k)[..n]
            && AwaitCount(Served(cells, who, blocks), who, k) == AwaitCount(cells, who, k) - n
    decreases |blocks|
  {
    if blocks != [] && blocks[0].Some? {
      var b := blocks[0].value;
      ServeOneCount(cells, who, b.bid, k);
      QueuedAre(ServeOne(cells, who, b.bid), who, blocks[1..], k);
      var rest, later := Queued(ServeOne(cells, who, b.bid), who, blocks[1..]), Parsed(blocks[1..]);
      QueuedFirst(cells, who, blocks);
      hide ServeOne, AwaitCount, Asked, Served, Queued, OfHash;
      OfHashFirst(b, rest, k);
      OfHashFirst(b, later, k);
      TakeOne(b, OfHash(later, k));
      assert Parsed(blocks) == [b] + later;
    }
  }

  lemma QueuedFirst(cells: seq<Cell>, who: Client, blocks: seq<Option<Block>>)
    requires blocks != [] && blocks[0].Some?
    ensures var b := blocks[0].value;
            var rest := Queued(ServeOne(cells, who, b.bid), who, blocks[1..]);
            Queued(cells, who, blocks) == if Asked(cells, who, b.bid) then [b] + rest else rest
  {
  }

  lemma OfHashFirst(b: Block, bs: seq<Block>, k: Hash)
    ensures OfHash([b] + bs, k) == (if b.bid == k then [b] else []) + OfHash(bs, k)
    ensures [] + OfHash(bs, k) == OfHash(bs, k)
  {
    assert ([b] + bs)[1..] == bs;
  }

  lemma TakeOne(b: Block, bs: seq<Block>)
    ensures forall n: nat :: n <= |bs| ==> ([b] + bs)[..n + 1] == [b] + bs[..n]
    ensures [] + bs == bs
  {
  }

  /** In the order they came. */
  ghost predicate Within(s: seq<Block>, t: seq<Block>)
    decreases |t|
  {
    s == [] || (t != [] && ((s[0] == t[0] && Within(s[1..], t[1..])) || Within(s, t[1..])))
  }

  lemma {:induction false} QueuedWithin(cells: seq<Cell>, who: Client, blocks: seq<Option<Block>>)
    ensures Within(Queued(cells, who, blocks), Parsed(blocks))
    decreases |blocks|
  {
    if blocks != [] && blocks[0].Some? {
      var b := blocks[0].value;
      QueuedWithin(ServeOne(cells, who, b.bid), who, blocks[1..]);
      var rest := Queued(ServeOne(cells, who, b.bid), who, blocks[1..]);
      assert ([b] + rest)[1..] == rest && [] + rest == rest;
      assert Parsed(blocks)[1..] == Parsed(blocks[1..]);
    }
  }

  /** The cells that are served were asked of this client and are not downloading
      any more; all others are as they were. */
  lemma {:induction false} ServedAre(cells: seq<Cell>, who: Client, blocks: seq<Option<Block>>, i: nat)
    requires i < |cells|
    ensures var c, r := cells[i], Served(cells, who, blocks)[i];
            r == c || (Awaits(c, who, c.bid) && r == c.(client := None, status := Preparing))
    decreases |blocks|
  {
    if blocks != [] && blocks[0].Some? {
      ServeOneAt(cells, who, blocks[0].value.bid, i);
      ServedAre(ServeOne(cells, who, blocks[0].value.bid), who, blocks[1..], i);
    }
  }

  lemma {:induction false} ServeOneAt(cells: seq<Cell>, who: Client, bid: Hash, i: nat)
    requires i < |cells|
    ensures var c, r := cells[i], ServeOne(cells, who, bid)[i];
            r == c || (Awaits(c, who, bid) && r == c.(client := None, status := Preparing))
    decreases |cells|
  {
    if i > 0 && !Awaits(cells[0], who, bid) {
      ServeOneAt(cells[1..], who, bid, i - 1);
    }
  }

  // ----- what stays of the window -----

  predicate SameCell(c: Cell, d: Cell) {
    d.bid == c.bid && d.height == c.height && d.status == c.status && d.block == c.block
  }

  /** The window is the same cells, whoever downloads them, with new ones to be
      downloaded behind them; or it was cut, and then the chain is forgotten. */
  ghost predicate Kept(s: seq<Cell>, chain: seq<Hash>, t: seq<Cell>, chain': seq<Hash>) {
    && Bids(t) + chain' <= Bids(s) + chain
    && (|t| < |s| ==> chain' == [])
    && forall i :: 0 <= i < |t| ==> if i < |s| then SameCell(s[i], t[i]) else t[i].status == Downloading
  }

  lemma KeptNone(s: seq<Cell>, chain: seq<Hash>)
    ensures Kept(s, chain, s, chain)
  {
  }

  lemma KeptSame(s: seq<Cell>, t: seq<Cell>, chain: seq<Hash>)
    requires SameCells(s, t)
    ensures Kept(s, chain, t, chain)
  {
    assert Bids(t) == Bids(s);
  }

  lemma KeptCut(s: seq<Cell>, chain: seq<Hash>, t: seq<Cell>)
    requires |t| <= |s| && SameCells(s[..|t|], t)
    ensures Kept(s, chain, t, [])
  {
    assert Bids(t) == Bids(s)[..|t|];
    assert Bids(t) + [] == Bids(t);
    assert Bids(t) <= Bids(s) + chain;
  }

  lemma KeptMore(s: seq<Cell>, chain: seq<Hash>, t: seq<Cell>, chain': seq<Hash>)
    requires s <= t && Bids(t) + chain' == Bids(s) + chain && forall i :: |s| <= i < |t| ==> t[i].status == Downloading
    ensures Kept(s, chain, t, chain')
  {
  }

  lemma KeptThen(s: seq<Cell>, chain: seq<Hash>, t: seq<Cell>, chain': seq<Hash>, u: seq<Cell>, chain'': seq<Hash>)
    requires Kept(s, chain, t, chain') && Kept(t, chain', u, chain'')
    ensures Kept(s, chain, u, chain'')
  {
    KeptLength(s, chain, t, chain');
    KeptLength(t, chain', u, chain'');
    assert Bids(u) + chain'' <= Bids(s) + chain;
    if |t| < |s| {
      assert |u| + |chain''| <= |t| + 0;
    }
  }

  lemma KeptLength(s: seq<Cell>, chain: seq<Hash>, t: seq<Cell>, chain': seq<Hash>)
    requires Kept(s, chain, t, chain')
    ensures |t| + |chain'| <= |s| + |chain|
  {
    assert |Bids(t) + chain'| <= |Bids(s) + chain|;
  }
}
