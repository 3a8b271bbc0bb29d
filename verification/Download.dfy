// The downloader's window of cells and what must hold of it.
module Download {
  import opened Basics

  type Client = nat
  type Hash = nat

  const TOTAL_DOWNLOAD_BLOCKS := 400
  const TOTAL_DOWNLOAD_WINDOW := 2000
  const GOOD_LAG := 5

  /** A block as received; its hash is computed from it. */
  datatype Block = Block(bid: Hash, body: nat)

  datatype Status = Downloading | Downloaded | Preparing | Prepared

  datatype Cell = Cell(bid: Hash, height: nat, client: Option<Client>, status: Status, protect: bool, block: Option<Block>)

  datatype Window = Window(good: map<Client, nat>, total: nat, cells: seq<Cell>, who: seq<Client>)

  // ----- counting -----

  function One(c: Cell, who: Client): nat {
    if c.status == Downloading && c.client == Some(who) then 1 else 0
  }

  /** How many cells a client is downloading. */
  function Count(cells: seq<Cell>, who: Client): nat
    decreases |cells|
  {
    if cells == [] then 0 else Count(cells[..|cells| - 1], who) + One(cells[|cells| - 1], who)
  }

  function Taken(c: Cell): nat {
    if c.client.Some? then 1 else 0
  }

  /** How many cells are being downloaded. */
  function Busy(cells: seq<Cell>): nat
    decreases |cells|
  {
    if cells == [] then 0 else Busy(cells[..|cells| - 1]) + Taken(cells[|cells| - 1])
  }

  lemma {:induction false} CountUpdate(cells: seq<Cell>, i: nat, c: Cell, who: Client)
    requires i < |cells|
    ensures Count(cells[i := c], who) + One(cells[i], who) == Count(cells, who) + One(c, who)
    ensures Busy(cells[i := c]) + Taken(cells[i]) == Busy(cells) + Taken(c)
    decreases |cells|
  {
    var front := cells[..|cells| - 1];
    if i == |cells| - 1 {
      assert cells[i := c][..i] == front;
    } else {
      CountUpdate(front, i, c, who);
      assert cells[i := c][..|cells| - 1] == front[i := c];
    }
  }

  lemma {:induction false} CountJoin(s: seq<Cell>, t: seq<Cell>, who: Client)
    ensures Count(s + t, who) == Count(s, who) + Count(t, who) && Busy(s + t) == Busy(s) + Busy(t)
    decreases |t|
  {
    if t == [] {
      assert s + t == s;
    } else {
      CountJoin(s, t[..|t| - 1], who);
      assert (s + t)[..|s + t| - 1] == s + t[..|t| - 1];
    }
  }

  lemma {:induction false} CountNone(cells: seq<Cell>, who: Client)
    requires forall i :: 0 <= i < |cells| ==> cells[i].client.None?
    ensures Count(cells, who) == 0 && Busy(cells) == 0
    decreases |cells|
  {
    if cells != [] {
      CountNone(cells[..|cells| - 1], who);
    }
  }

  lemma {:induction false} CountAt(cells: seq<Cell>, i: nat, who: Client)
    requires i < |cells| && One(cells[i], who) == 1
    ensures Count(cells, who) > 0 && Busy(cells) > 0
    decreases |cells|
  {
    if i < |cells| - 1 {
      CountAt(cells[..|cells| - 1], i, who);
    }
  }

  function SumOf(m: map<Client, nat>): nat
    decreases |m|
  {
    if m == map[] then 0 else
    var c := Least(m.Keys);
    m[c] + SumOf(m - {c})
  }

  // ----- the counters -----

  /** Each good client's counter is the number of its cells; a cell that names
      a client is downloading from a good one. */
  ghost predicate Counted(w: Window) {
    && (forall c :: c in w.good ==> w.good[c] == Count(w.cells, c))
    && (forall i :: 0 <= i < |w.cells| && w.cells[i].client.Some? ==>
          w.cells[i].status == Downloading && w.cells[i].client.value in w.good)
    && w.total == Busy(w.cells)
  }

  /** The counters add up to the total. */
  lemma CountersTotal(w: Window)
    requires Counted(w)
    ensures SumOf(w.good) == w.total
  {
    SumCounts(w.good, w.cells);
  }

  lemma {:induction false} SumCounts(m: map<Client, nat>, cells: seq<Cell>)
    requires forall c :: c in m ==> m[c] == Count(cells, c)
    requires forall i :: 0 <= i < |cells| && cells[i].client.Some? ==>
               cells[i].status == Downloading && cells[i].client.value in m
    ensures SumOf(m) == Busy(cells)
    decreases |cells|
  {
    if cells == [] {
      SumZero(m);
    } else {
      var front, last := cells[..|cells| - 1], cells[|cells| - 1];
      var n := map c | c in m :: Count(front, c);
      SumCounts(n, front);
      if last.client.Some? {
        var c := last.client.value;
        assert m == n[c := n[c] + 1];
        SumBump(n, c);
      } else {
        assert m == n;
      }
    }
  }

  lemma {:induction false} SumZero(m: map<Client, nat>)
    requires forall c :: c in m ==> m[c] == 0
    ensures SumOf(m) == 0
    decreases |m|
  {
    if m != map[] {
      SumZero(m - {Least(m.Keys)});
    }
  }

  lemma {:induction false} SumBump(m: map<Client, nat>, c: Client)
    requires c in m
    ensures SumOf(m[c := m[c] + 1]) == SumOf(m) + 1
    decreases |m|
  {
    var k := Least(m.Keys);
    assert m[c := m[c] + 1].Keys == m.Keys;
    if k == c {
      assert m[c := m[c] + 1] - {k} == m - {k};
    } else {
      assert m[c := m[c] + 1] - {k} == (m - {k})[c := m[c] + 1];
      SumBump(m - {k}, c);
    }
  }

  // ----- starting and stopping -----

  function StartDownload(w: Window, i: nat, who: Client): Window
    requires i < |w.cells|
  {
    w.(cells := w.cells[i := w.cells[i].(client := Some(who))],
       good := w.good[who := (if who in w.good then w.good[who] else 0) + 1], total := w.total + 1)
  }

  /** stop_download: None is the failed invariant(...). */
  function StopDownload(w: Window, i: nat, success: bool): Option<Window>
    requires i < |w.cells|
  {
    var dc := w.cells[i];
    if dc.status != Downloading || dc.client.None? then Some(w) else
    var who := dc.client.value;
    if who !in w.good || w.good[who] == 0 || w.total == 0 then None else
    Some(Window(w.good[who := w.good[who] - 1], w.total - 1,
                w.cells[i := dc.(client := None, status := if success then Downloaded else dc.status)],
                if success then w.who + [who] else w.who))
  }

  lemma StartCounted(w: Window, i: nat, who: Client)
    requires Counted(w) && i < |w.cells| && w.cells[i].client.None? && w.cells[i].status == Downloading && who in w.good
    ensures Counted(StartDownload(w, i, who))
  {
    var s := StartDownload(w, i, who);
    forall c | c in s.good
      ensures s.good[c] == Count(s.cells, c)
    {
      CountUpdate(w.cells, i, s.cells[i], c);
    }
    CountUpdate(w.cells, i, s.cells[i], who);
  }

  /** The invariant(...) in stop_download cannot fail. */
  lemma StopCounted(w: Window, i: nat, success: bool)
    requires Counted(w) && i < |w.cells|
    ensures var s := StopDownload(w, i, success); s.Some? && Counted(s.value) && s.value.cells[i].client.None?
  {
    var dc := w.cells[i];
    if dc.client.Some? {
      CountAt(w.cells, i, dc.client.value);
      var s := StopDownload(w, i, success).value;
      forall c | c in s.good
        ensures s.good[c] == Count(s.cells, c)
      {
        CountUpdate(w.cells, i, s.cells[i], c);
      }
      CountUpdate(w.cells, i, s.cells[i], dc.client.value);
    }
  }

  /** A change that is not about who downloads. */
  lemma RelabelCounted(w: Window, i: nat, c: Cell)
    requires Counted(w) && i < |w.cells| && w.cells[i].client.None? && c.client.None?
    ensures Counted(w.(cells := w.cells[i := c]))
  {
    CountUpdate(w.cells, i, c, 0);
    forall who
      ensures Count(w.cells[i := c], who) == Count(w.cells, who)
    {
      CountUpdate(w.cells, i, c, who);
    }
  }

  lemma PushCounted(w: Window, c: Cell)
    requires Counted(w) && c.client.None?
    ensures Counted(w.(cells := w.cells + [c]))
  {
    assert (w.cells + [c])[..|w.cells|] == w.cells;
  }

  lemma PopBackCounted(w: Window)
    requires Counted(w) && w.cells != [] && w.cells[|w.cells| - 1].client.None?
    ensures Counted(w.(cells := w.cells[..|w.cells| - 1]))
  {
  }

  lemma PopFrontCounted(w: Window)
    requires Counted(w) && w.cells != [] && w.cells[0].client.None?
    ensures Counted(w.(cells := w.cells[1..]))
  {
    assert w.cells == [w.cells[0]] + w.cells[1..];
    CountJoin([w.cells[0]], w.cells[1..], 0);
    CountNone([w.cells[0]], 0);
    forall who
      ensures Count(w.cells[1..], who) == Count(w.cells, who)
    {
      CountJoin([w.cells[0]], w.cells[1..], who);
      CountNone([w.cells[0]], who);
    }
  }

  // ----- a client leaving -----

  function Released(cells: seq<Cell>, who: Client): seq<Cell>
    decreases |cells|
  {
    if cells == [] then [] else
    var c := cells[|cells| - 1];
    Released(cells[..|cells| - 1], who) + [if c.client == Some(who) then c.(client := None) else c]
  }

  lemma {:induction false} ReleasedIs(cells: seq<Cell>, who: Client)
    ensures var r := Released(cells, who);
            && SameCells(cells, r)
            && forall i :: 0 <= i < |r| ==> r[i] == if cells[i].client == Some(who) then cells[i].(client := None) else cells[i]
    decreases |cells|
  {
    if cells != [] {
      ReleasedIs(cells[..|cells| - 1], who);
    }
  }

  lemma {:induction false} ReleasedCounts(cells: seq<Cell>, who: Client, c: Client)
    requires forall i :: 0 <= i < |cells| && cells[i].client.Some? ==> cells[i].status == Downloading
    ensures Busy(Released(cells, who)) + Count(cells, who) == Busy(cells)
    ensures c != who ==> Count(Released(cells, who), c) == Count(cells, c)
    decreases |cells|
  {
    if cells != [] {
      ReleasedCounts(cells[..|cells| - 1], who, c);
      var r := Released(cells, who);
      ReleasedIs(cells, who);
      ReleasedIs(cells[..|cells| - 1], who);
      assert r[..|r| - 1] == Released(cells[..|cells| - 1], who);
    }
  }

  function Without(s: seq<Client>, who: Client): seq<Client>
    decreases |s|
  {
    if s == [] then [] else
    Without(s[..|s| - 1], who) + if s[|s| - 1] == who then [] else [s[|s| - 1]]
  }

  /** on_disconnect, as far as the cells go. */
  function Left(w: Window, who: Client): Option<Window> {
    var n := if who in w.good then w.good[who] else 0;
    if w.total < n then None else
    Some(Window(w.good - {who}, w.total - n, Released(w.cells, who), Without(w.who, who)))
  }

  /** The invariant(...) in on_disconnect cannot fail. */
  lemma LeftCounted(w: Window, who: Client)
    requires Counted(w)
    ensures var l := Left(w, who);
            && l.Some? && Counted(l.value) && who !in l.value.good
            && l.value.total <= w.total && |l.value.cells| == |w.cells|
  {
    ReleasedIs(w.cells, who);
    ReleasedCounts(w.cells, who, who);
    if who !in w.good {
      NotTaken(w.cells, who);
    }
    forall c | c in w.good && c != who
      ensures w.good[c] == Count(Released(w.cells, who), c)
    {
      ReleasedCounts(w.cells, who, c);
    }
  }

  lemma {:induction false} NotTaken(cells: seq<Cell>, who: Client)
    requires forall i :: 0 <= i < |cells| ==> cells[i].client != Some(who)
    ensures Count(cells, who) == 0
    decreases |cells|
  {
    if cells != [] {
      NotTaken(cells[..|cells| - 1], who);
    }
  }

  lemma JoinCounted(w: Window, who: Client)
    requires Counted(w) && who !in w.good
    ensures Counted(w.(good := w.good[who := 0]))
  {
    NotTaken(w.cells, who);
  }

  // ----- order -----

  function Next(h: nat): nat {
    (h + 1) % WORD32
  }

  function Bids(cells: seq<Cell>): (r: seq<Hash>)
    ensures |r| == |cells| && forall i :: 0 <= i < |r| ==> r[i] == cells[i].bid
    decreases |cells|
  {
    if cells == [] then [] else Bids(cells[..|cells| - 1]) + [cells[|cells| - 1].bid]
  }

  /** Consecutive heights, up to the first of the chain still to come. */
  ghost predicate Stacked(cells: seq<Cell>, chain: seq<Hash>, startHeight: nat) {
    && (forall i :: 0 <= i < |cells| - 1 ==> cells[i + 1].height == Next(cells[i].height))
    && (cells != [] && chain != [] ==> startHeight == Next(cells[|cells| - 1].height))
  }

  /** What was added, what is in the window and what is to come are, in this
      order, the beginning of the chain a client sent. */
  ghost predicate InOrder(delivered: seq<Hash>, cells: seq<Cell>, chain: seq<Hash>, source: seq<Hash>) {
    delivered + Bids(cells) + chain <= source
  }

  /** A prepared cell holds the block it asked for. */
  ghost predicate Right(cells: seq<Cell>) {
    forall i :: 0 <= i < |cells| && cells[i].status == Prepared ==> cells[i].block.Some? && cells[i].block.value.bid == cells[i].bid
  }

  /** A cell waiting for its block to be prepared has a job under way. */
  ghost predicate Pending(cells: seq<Cell>, jobs: set<Hash>) {
    forall i :: 0 <= i < |cells| && cells[i].status == Preparing ==> cells[i].bid in jobs
  }

  /** Everything the downloader keeps; jobs are the hashes of the blocks
      handed to the preparing threads and not yet collected. */
  datatype Down = Down(w: Window, chainClient: Option<Client>, requestSent: bool, startHeight: nat, chain: seq<Hash>,
                       jobs: set<Hash>, source: seq<Hash>, delivered: seq<Hash>)

  ghost predicate Limits(d: Down) {
    && d.w.total <= TOTAL_DOWNLOAD_BLOCKS && |d.w.cells| <= TOTAL_DOWNLOAD_WINDOW
    && (d.chainClient.Some? ==> d.chainClient.value in d.w.good)
    && (d.requestSent ==> d.chainClient.Some? && d.w.cells == [] && d.chain == [])
  }

  ghost predicate Order(d: Down) {
    && Stacked(d.w.cells, d.chain, d.startHeight) && InOrder(d.delivered, d.w.cells, d.chain, d.source)
    && Right(d.w.cells) && (Distinct(d.source) ==> Pending(d.w.cells, d.jobs))
  }

  ghost predicate Inv(d: Down) {
    Counted(d.w) && Limits(d) && Order(d)
  }

  // ----- what keeps the order -----

  /** The same cells, whoever downloads them. */
  ghost predicate SameCells(s: seq<Cell>, t: seq<Cell>) {
    && |s| == |t|
    && forall i :: 0 <= i < |s| ==> t[i].bid == s[i].bid && t[i].height == s[i].height && t[i].status == s[i].status
                                    && t[i].block == s[i].block
  }

  lemma OrderSame(d: Down, e: Down)
    requires Order(d) && SameCells(d.w.cells, e.w.cells)
    requires e.startHeight == d.startHeight && e.chain == d.chain && d.jobs <= e.jobs
    requires e.source == d.source && e.delivered == d.delivered
    ensures Order(e)
  {
    assert Bids(e.w.cells) == Bids(d.w.cells);
  }

  lemma BidsJoin(s: seq<Cell>, t: seq<Cell>)
    ensures Bids(s + t) == Bids(s) + Bids(t)
  {
  }

  lemma PushOrder(d: Down)
    requires Order(d) && d.chain != []
    ensures var c := Cell(d.chain[0], d.startHeight, None, Downloading, false, None);
            Order(d.(w := d.w.(cells := d.w.cells + [c]), chain := d.chain[1..], startHeight := Next(d.startHeight)))
  {
    var c := Cell(d.chain[0], d.startHeight, None, Downloading, false, None);
    BidsJoin(d.w.cells, [c]);
    assert Bids([c]) == [d.chain[0]];
    assert d.chain == [d.chain[0]] + d.chain[1..];
    assert d.delivered + Bids(d.w.cells + [c]) + d.chain[1..] == d.delivered + Bids(d.w.cells) + d.chain;
  }

  /** Cells dropped from the back and the rest of the chain forgotten. */
  lemma CutOrder(d: Down, n: nat)
    requires Order(d) && n <= |d.w.cells|
    ensures Order(d.(w := d.w.(cells := d.w.cells[..n]), chain := []))
  {
    assert d.w.cells == d.w.cells[..n] + d.w.cells[n..];
    CutInOrder(d.delivered, d.w.cells[..n], d.w.cells[n..], d.chain, d.source);
    hide InOrder;
  }

  lemma CutInOrder(delivered: seq<Hash>, s: seq<Cell>, t: seq<Cell>, chain: seq<Hash>, source: seq<Hash>)
    requires InOrder(delivered, s + t, chain, source)
    ensures InOrder(delivered, s, [], source)
  {
    BidsJoin(s, t);
    hide Bids;
    assert delivered + Bids(s) + [] <= delivered + (Bids(s) + Bids(t)) + chain;
  }

  /** The first cell's block added to the chain. */
  lemma PopOrder(d: Down)
    requires Order(d) && d.w.cells != []
    ensures Order(d.(w := d.w.(cells := d.w.cells[1..]), delivered := d.delivered + [d.w.cells[0].bid]))
  {
    var first := d.w.cells[0];
    assert d.w.cells == [first] + d.w.cells[1..];
    PopInOrder(d.delivered, first, d.w.cells[1..], d.chain, d.source);
    hide InOrder;
  }

  lemma PopInOrder(delivered: seq<Hash>, first: Cell, rest: seq<Cell>, chain: seq<Hash>, source: seq<Hash>)
    requires InOrder(delivered, [first] + rest, chain, source)
    ensures InOrder(delivered + [first.bid], rest, chain, source)
  {
    BidsJoin([first], rest);
    assert Bids([first]) == [first.bid];
    hide Bids;
    assert delivered + [first.bid] + Bids(rest) + chain == delivered + ([first.bid] + Bids(rest)) + chain;
  }

  /** A received block handed to the preparing threads. */
  lemma ReceiveOrder(d: Down, i: nat, c: Cell)
    requires Order(d) && i < |d.w.cells|
    requires c.bid == d.w.cells[i].bid && c.height == d.w.cells[i].height && c.status != Prepared
    ensures Order(d.(w := d.w.(cells := d.w.cells[i := c]), jobs := d.jobs + {c.bid}))
  {
    assert Bids(d.w.cells[i := c]) == Bids(d.w.cells);
  }

  lemma PrepareOrder(d: Down, i: nat, b: Block)
    requires Order(d) && i < |d.w.cells| && b.bid == d.w.cells[i].bid
    ensures Order(d.(w := d.w.(cells := d.w.cells[i := d.w.cells[i].(status := Prepared, block := Some(b))])))
  {
    var c := d.w.cells[i].(status := Prepared, block := Some(b));
    assert Bids(d.w.cells[i := c]) == Bids(d.w.cells);
  }

  /** With no hash twice in the chain, no two cells wait for the same block. */
  lemma CellsDiffer(d: Down, i: nat, j: nat)
    requires Order(d) && Distinct(d.source) && i < j < |d.w.cells|
    ensures d.w.cells[i].bid != d.w.cells[j].bid
  {
    var n := |d.delivered|;
    assert Bids(d.w.cells)[i] == d.source[n + i];
    assert Bids(d.w.cells)[j] == d.source[n + j];
  }

  /** A prepared block collected: its cell, the first that waits for it, has it
      now, and nobody else was waiting. */
  lemma CollectOrder(d: Down, k: Hash, b: Block, found: Option<nat>)
    requires Order(d.(jobs := d.jobs + {k})) && b.bid == k
    requires found.Some? ==> found.value < |d.w.cells| && d.w.cells[found.value].status == Preparing
                             && d.w.cells[found.value].bid == k
    requires found.None? ==> forall i :: 0 <= i < |d.w.cells| && d.w.cells[i].status == Preparing ==> d.w.cells[i].bid != k
    ensures Order(if found.Some? then
                    var c := d.w.cells[found.value].(status := Prepared, block := Some(b));
                    d.(w := d.w.(cells := d.w.cells[found.value := c]))
                  else d)
  {
    if found.Some? {
      var i := found.value;
      PrepareOrder(d.(jobs := d.jobs + {k}), i, b);
      if Distinct(d.source) {
        forall j | 0 <= j < |d.w.cells| && j != i
          ensures d.w.cells[j].bid != k
        {
          if j < i {
            CellsDiffer(d.(jobs := d.jobs + {k}), j, i);
          } else {
            CellsDiffer(d.(jobs := d.jobs + {k}), i, j);
          }
        }
      }
    }
  }

  function BlockBids(bs: seq<Block>): seq<Hash>
    decreases |bs|
  {
    if bs == [] then [] else BlockBids(bs[..|bs| - 1]) + [bs[|bs| - 1].bid]
  }
}
