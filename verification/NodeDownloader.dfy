// DownloaderV11: what it does on every event. The heights and tips the clients
// report, which blocks are known, clocks and random choices are inputs.
module NodeDownloader {
  import opened Basics
  import opened Download
  import opened Answers

  /** What the downloader sees of its clients and its chain at one event. */
  datatype View = View(height: Client -> nat, topKnown: Client -> bool, tipHeight: nat, connections: nat, importing: bool, late: bool)

  /** Blocks one of which each client downloads at a time: at least one, at
      most a quarter of all. */
  function Speed(who: seq<Client>, c: Client): (r: nat)
    ensures r >= 1
  {
    Max(1, Min(TOTAL_DOWNLOAD_BLOCKS / 4, multiset(who)[c]))
  }

  /** A lighter load for its speed. */
  predicate Lighter(good: map<Client, nat>, who: seq<Client>, a: Client, b: Client)
    requires a in good && b in good
  {
    good[a] * Speed(who, b) < good[b] * Speed(who, a)
  }

  lemma LighterTransitive(x: nat, y: nat, z: nat, p: nat, q: nat, r: nat)
    requires p >= 1 && q >= 1 && r >= 1
    requires x * q <= y * p && y * r <= z * q
    ensures x * r <= z * p
  {
    assert (x * q) * r <= (y * p) * r;
    assert (y * r) * p <= (z * q) * p;
    assert (x * r) * q <= (z * p) * q;
  }

  class DownloaderV11 {
    var goodClients: map<Client, nat>
    var totalDownloadingBlocks: nat
    var whoDownloadedBlock: seq<Client>
    var chainClient: Option<Client>
    var chainRequestSent: bool
    var downloadChain: seq<Cell>
    var chainStartHeight: nat
    var chain: seq<Hash>
    var work: seq<Block>
    var inFlight: multiset<Block>
    var preparedBlocks: map<Hash, Block>
    /** The hashes last received, less those already known, and how many of
        them have gone to add_block. */
    ghost var source: seq<Hash>
    ghost var delivered: seq<Hash>

    ghost function Jobs(): set<Hash>
      reads this`work, this`inFlight, this`preparedBlocks
    {
      QueuedBids(work) + BidsOf(inFlight) + preparedBlocks.Keys
    }

    function Cells(): Window
      reads this`goodClients, this`totalDownloadingBlocks, this`downloadChain, this`whoDownloadedBlock
    {
      Window(goodClients, totalDownloadingBlocks, downloadChain, whoDownloadedBlock)
    }

    ghost function Contents(): Down
      reads this
    {
      Down(Cells(), chainClient, chainRequestSent, chainStartHeight, chain, Jobs(), source, delivered)
    }

    ghost predicate Valid()
      reads this
    {
      Inv(Contents()) && forall k :: k in preparedBlocks ==> preparedBlocks[k].bid == k
    }

    constructor ()
      ensures Valid() && goodClients == map[] && totalDownloadingBlocks == 0 && downloadChain == [] && chain == []
      ensures work == [] && inFlight == multiset{} && preparedBlocks == map[] && source == delivered == []
    {
      goodClients, totalDownloadingBlocks, whoDownloadedBlock := map[], 0, [];
      chainClient, chainRequestSent, downloadChain, chainStartHeight, chain := None, false, [], 0, [];
      work, inFlight, preparedBlocks := [], multiset{}, map[];
      source, delivered := [], [];
    }

    /** The window is full or the chain used up, and while fewer are downloading
        than may, every cell that is to be downloaded has a client. */
    ghost predicate Settled()
      reads this`downloadChain, this`chain, this`totalDownloadingBlocks
    {
      && (|downloadChain| == TOTAL_DOWNLOAD_WINDOW || chain == [])
      && (totalDownloadingBlocks >= TOTAL_DOWNLOAD_BLOCKS || AllTaken(downloadChain))
    }

    // ----- one cell -----

    method StartCell(i: nat, who: Client)
      requires Valid() && i < |downloadChain| && downloadChain[i].client.None? && downloadChain[i].status == Downloading
      requires who in goodClients && totalDownloadingBlocks < TOTAL_DOWNLOAD_BLOCKS
      modifies this`downloadChain, this`goodClients, this`totalDownloadingBlocks
      ensures Valid() && Cells() == StartDownload(old(Cells()), i, who)
    {
      hide Counted, Order;
      ghost var before := Contents();
      StartCounted(Cells(), i, who);
      downloadChain := downloadChain[i := downloadChain[i].(client := Some(who))];
      goodClients := goodClients[who := (if who in goodClients then goodClients[who] else 0) + 1];
      totalDownloadingBlocks := totalDownloadingBlocks + 1;
      OrderSame(before, Contents());
    }

    method StopCell(i: nat, success: bool)
      requires Counted(Cells()) && i < |downloadChain|
      modifies this`downloadChain, this`goodClients, this`totalDownloadingBlocks, this`whoDownloadedBlock
      ensures Some(Cells()) == StopDownload(old(Cells()), i, success)
      ensures Counted(Cells()) && downloadChain[i].client.None?
      ensures totalDownloadingBlocks <= old(totalDownloadingBlocks) && goodClients.Keys == old(goodClients).Keys
      ensures |downloadChain| == |old(downloadChain)|
      ensures !success ==> SameCells(old(downloadChain), downloadChain)
    {
      StopCounted(Cells(), i, success);
      hide Counted;
      var dc := downloadChain[i];
      if dc.status != Downloading || dc.client.None? {
        return;
      }
      var who := dc.client.value;
      goodClients := goodClients[who := goodClients[who] - 1];
      totalDownloadingBlocks := totalDownloadingBlocks - 1;
      if success {
        whoDownloadedBlock := whoDownloadedBlock + [who];
      }
      downloadChain := downloadChain[i := dc.(client := None, status := if success then Downloaded else dc.status)];
    }

    // ----- the parts of advance_download -----

    method PushCell()
      requires Valid() && |downloadChain| < TOTAL_DOWNLOAD_WINDOW && chain != []
      modifies this`downloadChain, this`chain, this`chainStartHeight
      ensures Valid() && |downloadChain| == |old(downloadChain)| + 1
      ensures old(downloadChain) <= downloadChain && Fresh(downloadChain, |old(downloadChain)|)
      ensures Bids(downloadChain) + chain == Bids(old(downloadChain)) + old(chain) && |chain| < |old(chain)|
    {
      hide Counted, Order, Bids;
      var c := Cell(chain[0], chainStartHeight, None, Downloading, false, None);
      PushCounted(Cells(), c);
      PushOrder(Contents());
      PushBids(downloadChain, c, chain);
      downloadChain := downloadChain + [c];
      chain := chain[1..];
      chainStartHeight := Next(chainStartHeight);
    }

    method FillWindow()
      requires Valid()
      modifies this`downloadChain, this`chain, this`chainStartHeight
      ensures Valid() && old(downloadChain) <= downloadChain && Fresh(downloadChain, |old(downloadChain)|)
      ensures Bids(downloadChain) + chain == Bids(old(downloadChain)) + old(chain)
      ensures |downloadChain| == TOTAL_DOWNLOAD_WINDOW || chain == []
    {
      hide Counted, Order, Bids;
      while |downloadChain| < TOTAL_DOWNLOAD_WINDOW && chain != []
        invariant Valid() && old(downloadChain) <= downloadChain && Fresh(downloadChain, |old(downloadChain)|)
        invariant Bids(downloadChain) + chain == Bids(old(downloadChain)) + old(chain)
        decreases |chain|
      {
        PushCell();
      }
    }

    method TrimWho()
      requires Valid()
      modifies this`whoDownloadedBlock
      ensures Valid() && |whoDownloadedBlock| <= TOTAL_DOWNLOAD_BLOCKS
    {
      while |whoDownloadedBlock| > TOTAL_DOWNLOAD_BLOCKS
        invariant Valid()
      {
        whoDownloadedBlock := whoDownloadedBlock[1..];
      }
    }

    /** The client with the lightest load for its speed among those that have
        the block. */
    method ReadyClient(v: View, height: nat) returns (ready: Option<Client>)
      ensures ready.Some? ==> ready.value in goodClients && v.height(ready.value) >= height
      ensures ready.Some? ==> forall c :: c in goodClients && v.height(c) >= height ==>
                                            !Lighter(goodClients, whoDownloadedBlock, c, ready.value)
      ensures ready.None? ==> forall c :: c in goodClients ==> v.height(c) < height
    {
      ready := None;
      var todo := goodClients.Keys;
      while todo != {}
        invariant todo <= goodClients.Keys
        invariant ready.Some? ==> ready.value in goodClients && v.height(ready.value) >= height
        invariant ready.Some? ==> forall c :: c in goodClients && c !in todo && v.height(c) >= height ==>
                                                !Lighter(goodClients, whoDownloadedBlock, c, ready.value)
        invariant ready.None? ==> forall c :: c in goodClients && c !in todo ==> v.height(c) < height
        decreases todo
      {
        var c := Least(todo);
        if v.height(c) >= height && (ready.None? || Lighter(goodClients, whoDownloadedBlock, c, ready.value)) {
          if ready.Some? {
            StillLightest(goodClients, whoDownloadedBlock, ready.value, c);
          }
          ready := Some(c);
        }
        todo := todo - {c};
      }
    }

    method DropLast()
      requires Counted(Cells()) && downloadChain != []
      modifies this`downloadChain, this`goodClients, this`totalDownloadingBlocks, this`whoDownloadedBlock
      ensures Counted(Cells()) && downloadChain == old(downloadChain)[..|old(downloadChain)| - 1]
      ensures totalDownloadingBlocks <= old(totalDownloadingBlocks) && goodClients.Keys == old(goodClients).Keys
    {
      hide Counted;
      var last := |downloadChain| - 1;
      StopCounted(Cells(), last, false);
      StopLast(Cells());
      StopCell(last, false);
      PopBackCounted(Cells());
      downloadChain := downloadChain[..last];
    }

    /** Everything from one cell on, and the chain to come, forgotten. */
    method CutChain(n: nat)
      requires Valid() && n <= |downloadChain|
      modifies this`downloadChain, this`goodClients, this`totalDownloadingBlocks, this`whoDownloadedBlock, this`chain
      ensures Valid() && chain == [] && goodClients.Keys == old(goodClients).Keys
      ensures downloadChain == old(downloadChain)[..n]
    {
      hide Counted, Order;
      ghost var before := Contents();
      while |downloadChain| > n
        invariant n <= |downloadChain| <= |before.w.cells|
        invariant Counted(Cells()) && totalDownloadingBlocks <= before.w.total && goodClients.Keys == before.w.good.Keys
        invariant downloadChain == before.w.cells[..|downloadChain|]
        decreases |downloadChain|
      {
        DropLast();
      }
      chain := [];
      CutOrder(before, n);
      AllSame(downloadChain);
      OrderSame(before.(w := before.w.(cells := before.w.cells[..n]), chain := []), Contents());
    }

    /** One cell given to the client with the lightest load that has the block
        or, when none has it, to the one whose chain it is. */
    method GiveCell(v: View, i: nat) returns (given: bool)
      requires Valid() && i < |downloadChain| && downloadChain[i].client.None? && downloadChain[i].status == Downloading
      requires totalDownloadingBlocks < TOTAL_DOWNLOAD_BLOCKS
      modifies this`downloadChain, this`goodClients, this`totalDownloadingBlocks
      ensures Valid() && goodClients.Keys == old(goodClients).Keys && |downloadChain| == |old(downloadChain)|
      ensures given ==> downloadChain == old(downloadChain)[i := old(downloadChain)[i].(client := downloadChain[i].client)]
                        && Suited(v, goodClients.Keys, chainClient, downloadChain[i].height, downloadChain[i].client)
      ensures !given ==> downloadChain == old(downloadChain) && chainClient.None? && Stranded(downloadChain[i], v, goodClients.Keys)
    {
      hide Counted, Order;
      var ready := ReadyClient(v, downloadChain[i].height);
      if ready.None? {
        ready := chainClient;
      }
      if ready.None? {
        return false;
      }
      StartCell(i, ready.value);
      return true;
    }

    /** Cells without a client given one, in order, until the limit is reached;
        false when some cell could not be, and it and all after it are gone. */
    method StartDownloads(v: View) returns (ok: bool)
      requires Valid()
      modifies this`downloadChain, this`goodClients, this`totalDownloadingBlocks, this`whoDownloadedBlock, this`chain
      ensures Valid() && goodClients.Keys == old(goodClients).Keys
      ensures |downloadChain| <= |old(downloadChain)|
      ensures GivenOut(old(downloadChain)[..|downloadChain|], downloadChain, v, goodClients.Keys, chainClient)
      ensures ok ==> |downloadChain| == |old(downloadChain)| && chain == old(chain)
      ensures !ok ==> chain == [] && chainClient.None? && |downloadChain| < |old(downloadChain)|
                      && Stranded(old(downloadChain)[|downloadChain|], v, goodClients.Keys)
      ensures !ok || totalDownloadingBlocks < TOTAL_DOWNLOAD_BLOCKS ==> AllTaken(downloadChain)
    {
      hide Counted, Order, Bids, GivenOut, Stranded, AllTaken;
      ghost var before := downloadChain;
      var i := 0;
      assert before[..|before|] == before;
      GivenNone(before, v, goodClients.Keys, chainClient);
      TakenNone(before);
      while i < |downloadChain|
        invariant 0 <= i <= |downloadChain| == |before|
        invariant Valid() && goodClients.Keys == old(goodClients).Keys && chain == old(chain)
        invariant GivenOut(before, downloadChain, v, goodClients.Keys, chainClient)
        invariant AllTaken(downloadChain[..i])
      {
        if downloadChain[i].status == Downloading && downloadChain[i].client.None? {
          if totalDownloadingBlocks >= TOTAL_DOWNLOAD_BLOCKS {
            return true;
          }
          ghost var at := downloadChain;
          var given := GiveCell(v, i);
          if !given {
            GivenPrefix(before, at, i, v, goodClients.Keys, chainClient);
            StrandedCell(before, at, i, v, goodClients.Keys);
            CutChain(i);
            return false;
          }
          GivenMore(before, at, i, downloadChain[i].client, v, goodClients.Keys, chainClient);
        }
        TakenMore(downloadChain, i);
        i := i + 1;
      }
      assert downloadChain[..i] == downloadChain;
      return true;
    }

    // ----- advance_download, advance_chain and on_disconnect, which disconnect clients in turn -----

    method LetGo(who: Client)
      requires Valid()
      modifies this`goodClients, this`totalDownloadingBlocks, this`whoDownloadedBlock, this`downloadChain
      modifies this`chainClient, this`chainRequestSent
      ensures Valid() && goodClients == old(goodClients) - {who}
      ensures Some(Cells()) == Left(old(Cells()), who) && Kept(old(downloadChain), chain, downloadChain, chain)
    {
      hide Counted, Order, Jobs, Released, Without, Kept;
      ghost var before := Contents();
      LeftCounted(Cells(), who);
      ReleasedIs(downloadChain, who);
      totalDownloadingBlocks := totalDownloadingBlocks - (if who in goodClients then goodClients[who] else 0);
      goodClients := goodClients - {who};
      whoDownloadedBlock := Without(whoDownloadedBlock, who);
      downloadChain := Released(downloadChain, who);
      if chainClient == Some(who) {
        chainClient := None;
        chainRequestSent := false;
      }
      KeptSame(before.w.cells, downloadChain, chain);
      OrderSame(before, Contents());
    }

    method OnDisconnect(v: View, who: Client)
      requires Valid()
      modifies this`goodClients, this`totalDownloadingBlocks, this`whoDownloadedBlock, this`downloadChain
      modifies this`chainClient, this`chainRequestSent, this`chain, this`chainStartHeight
      ensures Valid() && who !in goodClients
      ensures Kept(old(downloadChain), old(chain), downloadChain, chain)
      ensures Losses(v, old(goodClients).Keys - {who}, goodClients.Keys, |old(downloadChain)| + |old(chain)|)
      ensures v.importing || Settled()
      decreases |goodClients.Keys + {who}|, 1
    {
      hide Inv, Jobs, Kept, Losses, Settled, Left, Released;
      ghost var s, c := downloadChain, chain;
      LetGo(who);
      KeptLength(s, c, downloadChain, chain);
      assert goodClients.Keys < old(goodClients).Keys + {who};
      SmallerSet(goodClients.Keys, old(goodClients).Keys + {who});
      ghost var t, g := downloadChain, goodClients.Keys;
      assert g == old(goodClients).Keys - {who};
      AdvanceDownload(v);
      KeptThen(s, c, t, c, downloadChain, chain);
      LossesLeft(v, g, goodClients.Keys, |t| + |c|, |s| + |c|, who);
    }

    /** Clients whose height is well below the tip. */
    function Lagging(v: View): set<Client>
      reads this`goodClients
    {
      set c | c in goodClients && Lags(v, c)
    }

    /** With nothing to download, one client with an unknown tip is asked for its
        chain, if there is one; but when too many lag behind, one of these is
        disconnected instead. */
    method AdvanceChain(v: View)
      requires Valid()
      modifies this`goodClients, this`totalDownloadingBlocks, this`whoDownloadedBlock, this`downloadChain
      modifies this`chainClient, this`chainRequestSent, this`chain, this`chainStartHeight
      ensures Valid()
      ensures Kept(old(downloadChain), old(chain), downloadChain, chain)
      ensures Losses(v, old(goodClients).Keys, goodClients.Keys, |old(downloadChain)| + |old(chain)|)
      ensures (downloadChain == old(downloadChain) && chain == old(chain) && totalDownloadingBlocks == old(totalDownloadingBlocks))
              || v.importing || Settled()
      ensures old(chain) != [] || old(downloadChain) != [] || old(chainRequestSent) ==>
                downloadChain == old(downloadChain) && chain == old(chain) && goodClients == old(goodClients)
                && chainClient == old(chainClient) && chainRequestSent == old(chainRequestSent)
      ensures old(chain) == [] && old(downloadChain) == [] && !old(chainRequestSent) ==>
                if |old(Lagging(v))| > v.connections / 4 then exists c :: c in old(Lagging(v)) && c !in goodClients
                else goodClients == old(goodClients) && (chainRequestSent <==> exists c :: c in goodClients && !v.topKnown(c))
                     && (chainRequestSent ==> chainClient.Some? && chainClient.value in goodClients && !v.topKnown(chainClient.value))
      decreases |goodClients.Keys|, 2
    {
      hide Counted, Order, Kept, Losses, Settled;
      KeptNone(downloadChain, chain);
      LossesNone(v, goodClients.Keys, |downloadChain| + |chain|);
      if chain != [] || downloadChain != [] || chainRequestSent {
        return;
      }
      ghost var before := Contents();
      chainClient := None;
      AllSame(downloadChain);
      OrderSame(before, Contents());
      var lagging := Lagging(v);
      var worth := set c | c in goodClients && !v.topKnown(c);
      if |lagging| > v.connections / 4 {
        var who := Least(lagging);
        assert goodClients.Keys + {who} == goodClients.Keys;
        ghost var g := goodClients.Keys;
        OnDisconnect(v, who);
        LossesOne(v, g, goodClients.Keys, 0, who);
        return;
      }
      if worth == {} {
        assert forall c :: c in goodClients ==> v.topKnown(c) || c in worth;
        return;
      }
      var c :| c in worth;
      AskChain(c);
    }

    /** One client is asked for its chain. */
    method AskChain(who: Client)
      requires Valid() && who in goodClients && chain == [] && downloadChain == []
      modifies this`chainClient, this`chainRequestSent
      ensures Valid() && chainClient == Some(who) && chainRequestSent
    {
      hide Counted, Order, Jobs;
      ghost var before := Contents();
      chainClient, chainRequestSent := Some(who), true;
      AllSame(downloadChain);
      OrderSame(before, Contents());
    }

    /** advance_download: the window is filled and its cells given to clients.
        What was in it stays, unless it is cut; clients are lost only for lagging
        behind or holding everything up. */
    method AdvanceDownload(v: View)
      requires Valid()
      modifies this`goodClients, this`totalDownloadingBlocks, this`whoDownloadedBlock, this`downloadChain
      modifies this`chainClient, this`chainRequestSent, this`chain, this`chainStartHeight
      ensures Valid()
      ensures Kept(old(downloadChain), old(chain), downloadChain, chain)
      ensures Losses(v, old(goodClients).Keys, goodClients.Keys, |old(downloadChain)| + |old(chain)|)
      ensures if v.importing then
                downloadChain == old(downloadChain) && chain == old(chain) && goodClients == old(goodClients)
                && totalDownloadingBlocks == old(totalDownloadingBlocks)
              else Settled()
      decreases |goodClients.Keys|, 5
    {
      hide Inv, Jobs, GivenOut, Stranded, AllTaken, Fresh, Bids, SameCells, Kept, Losses, Suited;
      ghost var s0, c0, g0 := downloadChain, chain, goodClients.Keys;
      ghost var n := |s0| + |c0|;
      LossesNone(v, g0, n);
      if v.importing {
        KeptNone(s0, c0);
        return;
      }
      FillWindow();
      KeptFill(s0, c0, downloadChain, chain);
      Advanced(v, s0, c0, g0, n);
      SmallerSet(goodClients.Keys, old(goodClients).Keys);
      TrimWho();
      GiveOut(v, s0, c0, g0, n);
    }

    /** The cells given out, and the one client that holds up everything
        disconnected. */
    method GiveOut(v: View, ghost s0: seq<Cell>, ghost c0: seq<Hash>, ghost g0: set<Client>, ghost n: nat)
      requires n == |s0| + |c0| && !v.importing && (|downloadChain| == TOTAL_DOWNLOAD_WINDOW || chain == [])
      requires Valid() && Kept(s0, c0, downloadChain, chain) && Losses(v, g0, goodClients.Keys, n)
      modifies this`goodClients, this`totalDownloadingBlocks, this`whoDownloadedBlock, this`downloadChain
      modifies this`chainClient, this`chainRequestSent, this`chain, this`chainStartHeight
      ensures Valid() && Kept(s0, c0, downloadChain, chain) && Losses(v, g0, goodClients.Keys, n) && Settled()
      decreases |goodClients.Keys|, 4
    {
      hide Inv, Jobs, GivenOut, Stranded, AllTaken, Fresh, Bids, SameCells, Kept, Losses, Suited;
      ghost var s1, c1 := downloadChain, chain;
      var ok := StartDownloads(v);
      GivenKept(s1, c1, downloadChain, chain, v, goodClients.Keys, chainClient);
      KeptThen(s0, c0, s1, c1, downloadChain, chain);
      if !ok {
        Advanced(v, s0, c0, g0, n);
        return;
      }
      ghost var s2 := downloadChain;
      var slacker := Slacker(v);
      if slacker.Some? {
        KeptSame(s2, downloadChain, chain);
        KeptThen(s0, c0, s2, chain, downloadChain, chain);
        KeptLength(s0, c0, downloadChain, chain);
        Dropped(v, slacker.value, s0, c0, g0, n);
      }
    }

    /** advance_chain in the course of it. */
    method Advanced(v: View, ghost s0: seq<Cell>, ghost c0: seq<Hash>, ghost g0: set<Client>, ghost n: nat)
      requires n == |s0| + |c0|
      requires Valid() && Kept(s0, c0, downloadChain, chain) && Losses(v, g0, goodClients.Keys, n)
      modifies this`goodClients, this`totalDownloadingBlocks, this`whoDownloadedBlock, this`downloadChain
      modifies this`chainClient, this`chainRequestSent, this`chain, this`chainStartHeight
      ensures Valid() && Kept(s0, c0, downloadChain, chain) && Losses(v, g0, goodClients.Keys, n)
      ensures goodClients.Keys <= old(goodClients).Keys
      ensures (downloadChain == old(downloadChain) && chain == old(chain) && totalDownloadingBlocks == old(totalDownloadingBlocks))
              || v.importing || Settled()
      decreases |goodClients.Keys|, 3
    {
      hide Inv, Jobs, Kept, Losses, Settled;
      ghost var s, c, g := downloadChain, chain, goodClients.Keys;
      KeptLength(s0, c0, s, c);
      AdvanceChain(v);
      KeptThen(s0, c0, s, c, downloadChain, chain);
      LossesLess(v, g, goodClients.Keys, |s| + |c|, n);
      LossesThen(v, g0, g, goodClients.Keys, n);
      LossesFewer(v, g, goodClients.Keys, n);
    }

    /** A slacker disconnected in the course of it. */
    method Dropped(v: View, who: Client, ghost s0: seq<Cell>, ghost c0: seq<Hash>, ghost g0: set<Client>, ghost n: nat)
      requires n == |s0| + |c0|
      requires Valid() && Kept(s0, c0, downloadChain, chain) && Losses(v, g0, goodClients.Keys, n)
      requires who in goodClients && MayLose(v, who, n)
      modifies this`goodClients, this`totalDownloadingBlocks, this`whoDownloadedBlock, this`downloadChain
      modifies this`chainClient, this`chainRequestSent, this`chain, this`chainStartHeight
      ensures Valid() && Kept(s0, c0, downloadChain, chain) && Losses(v, g0, goodClients.Keys, n)
      ensures v.importing || Settled()
      decreases |goodClients.Keys|, 3
    {
      hide Inv, Jobs, Kept, Losses, Settled, MayLose;
      ghost var s, c, g := downloadChain, chain, goodClients.Keys;
      KeptLength(s0, c0, s, c);
      assert goodClients.Keys + {who} == goodClients.Keys;
      OnDisconnect(v, who);
      KeptThen(s0, c0, s, c, downloadChain, chain);
      LossesLess(v, g - {who}, goodClients.Keys, |s| + |c|, n);
      LossesOne(v, g, goodClients.Keys, n, who);
      LossesThen(v, g0, g, goodClients.Keys, n);
    }

    /** The client to disconnect because everything waits for its block. */
    method Slacker(v: View) returns (slacker: Option<Client>)
      requires Valid()
      modifies this`downloadChain
      ensures Valid() && SameCells(old(downloadChain), downloadChain)
      ensures slacker.Some? ==> slacker.value in goodClients && (v.late || |downloadChain| >= TOTAL_DOWNLOAD_WINDOW)
      ensures slacker.None? ==> downloadChain == old(downloadChain)
    {
      hide Inv, SameCells;
      if downloadChain != [] && downloadChain[0].client.Some? && !downloadChain[0].protect && downloadChain[0].status == Downloading {
        var slow := totalDownloadingBlocks < TOTAL_DOWNLOAD_BLOCKS && |downloadChain| >= TOTAL_DOWNLOAD_WINDOW && |goodClients| > 1;
        if slow || v.late {
          slacker := downloadChain[0].client;
          Protect(slacker.value);
          return;
        }
      }
      AllSame(downloadChain);
      return None;
    }

    /** The other cells of a client about to be disconnected are spared. */
    method Protect(who: Client)
      requires Valid() && downloadChain != [] && downloadChain[0].client == Some(who)
      modifies this`downloadChain
      ensures Valid() && SameCells(old(downloadChain), downloadChain) && who in goodClients
      ensures |downloadChain| == |old(downloadChain)|
    {
      hide Order, Jobs, Protected, Count, Busy;
      ghost var before := Contents();
      ProtectedCounted(before.w, who);
      assert who in goodClients;
      hide Counted;
      ProtectedIs(downloadChain, who);
      downloadChain := Protected(downloadChain, who);
      OrderSame(before, Contents());
    }

    // ----- events from clients -----

    method OnConnect(v: View, who: Client, incoming: bool, version: nat)
      requires Valid()
      modifies this`goodClients, this`totalDownloadingBlocks, this`whoDownloadedBlock, this`downloadChain
      modifies this`chainClient, this`chainRequestSent, this`chain, this`chainStartHeight
      ensures Valid() && Kept(old(downloadChain), old(chain), downloadChain, chain)
      ensures if incoming || version != 1 then goodClients == old(goodClients) && downloadChain == old(downloadChain)
              else Losses(v, old(goodClients).Keys + {who}, goodClients.Keys, |old(downloadChain)| + |old(chain)|)
                   && (v.importing || Settled())
    {
      hide Inv, Jobs, Kept, Losses, Settled;
      KeptNone(downloadChain, chain);
      if incoming || version != 1 {
        return;
      }
      if who !in goodClients {
        Admit(who);
      }
      assert goodClients.Keys == old(goodClients).Keys + {who};
      AdvanceDownload(v);
    }

    method Admit(who: Client)
      requires Valid() && who !in goodClients
      modifies this`goodClients
      ensures Valid() && goodClients == old(goodClients)[who := 0]
    {
      hide Counted, Order, Jobs;
      ghost var before := Contents();
      JoinCounted(Cells(), who);
      goodClients := goodClients[who := 0];
      AllSame(downloadChain);
      OrderSame(before, Contents());
    }

    /** A list of hashes: what of it is not known yet becomes the chain. */
    method OnMsgNotifyRequestChain(v: View, who: Client, startHeight: nat, ids: seq<Hash>, hasBlock: Hash -> bool)
      requires Valid()
      modifies this`goodClients, this`totalDownloadingBlocks, this`whoDownloadedBlock, this`downloadChain
      modifies this`chainClient, this`chainRequestSent, this`chain, this`chainStartHeight
      modifies this`source, this`delivered
      ensures Valid()
      ensures if old(chainClient) == Some(who) && old(chainRequestSent) then
                && delivered == [] && source == Unknown(ids, hasBlock) && Kept([], source, downloadChain, chain)
                && (v.importing || Settled())
              else source == old(source) && delivered == old(delivered) && downloadChain == old(downloadChain) && chain == old(chain)
    {
      hide Inv, Jobs, Kept, Losses, Settled;
      if chainClient != Some(who) || !chainRequestSent {
        return;
      }
      NoCells(Contents());
      TakeChain(startHeight, ids, hasBlock);
      KeptNone(downloadChain, chain);
      if ids == [] {
        OnDisconnect(v, who);
      }
      ghost var s, c := downloadChain, chain;
      AdvanceDownload(v);
      KeptThen([], source, s, c, downloadChain, chain);
    }

    method TakeChain(startHeight: nat, ids: seq<Hash>, hasBlock: Hash -> bool)
      requires Valid() && chainRequestSent
      modifies this`chainRequestSent, this`chain, this`chainStartHeight, this`source, this`delivered
      ensures Valid() && !chainRequestSent && delivered == [] && source == chain
      ensures source == Unknown(ids, hasBlock)
    {
      hide Jobs, Inv;
      ghost var before := Contents();
      chainRequestSent := false;
      chainStartHeight := startHeight;
      var downloading := set b | b in Bids(downloadChain);
      NoCells(before);
      chain := ids;
      while chain != [] && (hasBlock(chain[0]) || chain[0] in downloading)
        invariant Unknown(chain, hasBlock) == Unknown(ids, hasBlock) && !chainRequestSent
        decreases |chain|
      {
        chain := chain[1..];
        chainStartHeight := Next(chainStartHeight);
      }
      delivered, source := [], chain;
      NewChain(before, chain, chainStartHeight);
      assert Contents() == before.(requestSent := false, chain := chain, startHeight := chainStartHeight, source := chain, delivered := []);
    }

    /** The first cell downloading this block from this client. */
    method FindCell(who: Client, bid: Hash) returns (found: Option<nat>)
      ensures found.Some? ==> found.value < |downloadChain| && Awaits(downloadChain[found.value], who, bid)
                              && forall j :: 0 <= j < found.value ==> !Awaits(downloadChain[j], who, bid)
      ensures found.None? ==> forall i :: 0 <= i < |downloadChain| ==> !Awaits(downloadChain[i], who, bid)
    {
      for i := 0 to |downloadChain|
        invariant forall j :: 0 <= j < i ==> !Awaits(downloadChain[j], who, bid)
      {
        if Awaits(downloadChain[i], who, bid) {
          return Some(i);
        }
      }
      return None;
    }

    /** A block that was asked for: handed to the preparing threads. */
    method Receive(i: nat, b: Block)
      requires Valid() && i < |downloadChain| && downloadChain[i].bid == b.bid
      modifies this`downloadChain, this`goodClients, this`totalDownloadingBlocks, this`whoDownloadedBlock, this`work
      ensures Valid() && work == old(work) + [b] && goodClients.Keys == old(goodClients).Keys
      ensures |downloadChain| == |old(downloadChain)|
      ensures downloadChain == old(downloadChain)[i := old(downloadChain)[i].(client := None, status := Preparing)]
    {
      hide Counted, Order;
      ghost var before := Contents();
      StopCell(i, true);
      var c := downloadChain[i].(status := Preparing);
      StopKeepsRest(before.w, i, true, c);
      RelabelCounted(Cells(), i, c);
      downloadChain := downloadChain[i := c];
      work := work + [b];
      assert Jobs() == before.jobs + {b.bid} by { JobsMore(old(work), b); }
      ReceiveOrder(before, i, c);
      AllSame(downloadChain);
      OrderSame(before.(w := before.w.(cells := before.w.cells[i := c]), jobs := Jobs()), Contents());
    }

    /** Blocks and missing blocks of one client's answer; None is a block that
        could not be parsed. */
    method OnMsgNotifyRequestObjects(v: View, who: Client, blocks: seq<Option<Block>>, missed: seq<Hash>)
      requires Valid()
      modifies this`goodClients, this`totalDownloadingBlocks, this`whoDownloadedBlock, this`downloadChain
      modifies this`chainClient, this`chainRequestSent, this`chain, this`chainStartHeight
      modifies this`work
      ensures Valid() && work == old(work) + Queued(old(downloadChain), who, blocks)
      ensures Kept(Served(old(downloadChain), who, blocks), old(chain), downloadChain, chain)
      ensures v.importing || Settled()
    {
      hide Inv, Jobs, Kept, Losses, Settled, Queued, Served;
      ghost var s0, c0 := Served(downloadChain, who, blocks), chain;
      var _ := TakeAnswer(v, who, blocks, missed);
      ghost var s, c := downloadChain, chain;
      AdvanceDownload(v);
      KeptThen(s0, c0, s, c, downloadChain, chain);
    }

    /** The blocks go to the cells that await them; then none of the missing ones
        is awaited from this client, unless the window was cut at one of them. */
    method TakeAnswer(v: View, who: Client, blocks: seq<Option<Block>>, missed: seq<Hash>) returns (cut: bool)
      requires Valid()
      modifies this`goodClients, this`totalDownloadingBlocks, this`whoDownloadedBlock, this`downloadChain
      modifies this`chainClient, this`chainRequestSent, this`chain, this`chainStartHeight
      modifies this`work
      ensures Valid() && work == old(work) + Queued(old(downloadChain), who, blocks)
      ensures Kept(Served(old(downloadChain), who, blocks), old(chain), downloadChain, chain)
      ensures if cut then chain == [] && (chainClient.None? || chainClient == Some(who))
              else forall k :: k in missed ==> !Asked(downloadChain, who, k)
      ensures (exists n :: 0 <= n < |blocks| && blocks[n].None?) ==> who !in goodClients
    {
      hide Inv, Jobs, Kept, Losses, Settled, Queued, Served, Asked;
      ghost var s0, c0 := Served(downloadChain, who, blocks), chain;
      var bad := TakeBlocks(who, blocks);
      KeptNone(downloadChain, chain);
      if bad {
        OnDisconnect(v, who);
      }
      ghost var s, c := downloadChain, chain;
      cut := TakeMissed(who, missed);
      KeptThen(s0, c0, s, c, downloadChain, chain);
    }

    method TakeBlocks(who: Client, blocks: seq<Option<Block>>) returns (bad: bool)
      requires Valid()
      modifies this`goodClients, this`totalDownloadingBlocks, this`whoDownloadedBlock, this`downloadChain, this`work
      ensures Valid() && goodClients.Keys == old(goodClients).Keys
      ensures work == old(work) + Queued(old(downloadChain), who, blocks) && downloadChain == Served(old(downloadChain), who, blocks)
      ensures bad <==> exists n :: 0 <= n < |blocks| && blocks[n].None?
    {
      hide Inv, Jobs, Queued, Served, ServeOne, Asked;
      assert blocks[0..] == blocks;
      for n := 0 to |blocks|
        invariant Valid() && goodClients.Keys == old(goodClients).Keys && forall m :: 0 <= m < n ==> blocks[m].Some?
        invariant work + Queued(downloadChain, who, blocks[n..]) == old(work) + Queued(old(downloadChain), who, blocks)
        invariant Served(downloadChain, who, blocks[n..]) == Served(old(downloadChain), who, blocks)
      {
        QueuedNext(downloadChain, who, blocks, n);
        if blocks[n].None? {
          return true;
        }
        var found := FindCell(who, blocks[n].value.bid);
        ServeOneIs(downloadChain, who, blocks[n].value.bid, found);
        if found.Some? {
          QueuedFront(work, blocks[n].value, Queued(ServeOne(downloadChain, who, blocks[n].value.bid), who, blocks[n + 1..]));
          Receive(found.value, blocks[n].value);
        }
      }
      QueuedEnd(downloadChain, who, blocks);
      return false;
    }

    method TakeMissed(who: Client, missed: seq<Hash>) returns (cut: bool)
      requires Valid()
      modifies this`downloadChain, this`goodClients, this`totalDownloadingBlocks, this`whoDownloadedBlock, this`chain
      ensures Valid() && goodClients.Keys == old(goodClients).Keys
      ensures Kept(old(downloadChain), old(chain), downloadChain, chain)
      ensures if cut then chain == [] && (chainClient.None? || chainClient == Some(who))
              else forall k :: k in missed ==> !Asked(downloadChain, who, k)
    {
      hide Inv, Jobs, Kept, Asked;
      KeptNone(downloadChain, chain);
      for n := 0 to |missed|
        invariant Valid() && goodClients.Keys == old(goodClients).Keys
        invariant Kept(old(downloadChain), old(chain), downloadChain, chain)
        invariant forall k :: k in missed[..n] ==> !Asked(downloadChain, who, k)
      {
        ghost var s, c := downloadChain, chain;
        cut := MissedBlock(who, missed[n]);
        KeptThen(old(downloadChain), old(chain), s, c, downloadChain, chain);
        if cut {
          return;
        }
        assert missed[..n + 1] == missed[..n] + [missed[n]];
      }
      assert missed[..|missed|] == missed;
      cut := false;
    }

    /** A block a client does not have: asked from the chain client, unless it
        is that client, and then the chain is cut. */
    method MissedBlock(who: Client, bid: Hash) returns (cut: bool)
      requires Valid()
      modifies this`downloadChain, this`goodClients, this`totalDownloadingBlocks, this`whoDownloadedBlock, this`chain
      ensures Valid() && goodClients.Keys == old(goodClients).Keys
      ensures Kept(old(downloadChain), old(chain), downloadChain, chain)
      ensures if cut then chain == [] && (chainClient.None? || chainClient == Some(who)) else !Asked(downloadChain, who, bid)
      ensures forall k :: Asked(downloadChain, who, k) ==> Asked(old(downloadChain), who, k)
    {
      hide Inv, Jobs, Kept;
      ghost var s := downloadChain;
      var i := 0;
      NoNewAsks(s, s, who);
      AllSame(s);
      while i < |downloadChain|
        invariant 0 <= i <= |downloadChain| == |s| && chain == old(chain)
        invariant Valid() && goodClients.Keys == old(goodClients).Keys
        invariant SameCells(s, downloadChain) && NoNewAsk(s, downloadChain, who)
        invariant forall j :: 0 <= j < i ==> !Awaits(downloadChain[j], who, bid)
      {
        if Awaits(downloadChain[i], who, bid) {
          Drop(i);
          if chainClient.None? || chainClient == Some(who) {
            assert SameCells(s[..i], downloadChain[..i]);
            NoNewAskCut(s, downloadChain, i, who);
            CutChain(i);
            KeptCut(s, old(chain), downloadChain);
            NoNewAsks(s, downloadChain, who);
            return true;
          }
          Restart(i);
        }
        i := i + 1;
      }
      KeptSame(s, downloadChain, chain);
      NoNewAsks(s, downloadChain, who);
      return false;
    }

    method Drop(i: nat)
      requires Valid() && i < |downloadChain| && downloadChain[i].status == Downloading && downloadChain[i].client.Some?
      modifies this`downloadChain, this`goodClients, this`totalDownloadingBlocks, this`whoDownloadedBlock
      ensures Valid() && goodClients.Keys == old(goodClients).Keys && totalDownloadingBlocks < TOTAL_DOWNLOAD_BLOCKS
      ensures downloadChain == old(downloadChain)[i := old(downloadChain)[i].(client := None)]
    {
      ghost var before := Contents();
      StopCounted(before.w, i, false);
      hide Counted, Order, Jobs;
      StopCell(i, false);
      OrderSame(before, Contents());
    }

    method Restart(i: nat)
      requires Valid() && i < |downloadChain| && downloadChain[i].client.None? && downloadChain[i].status == Downloading
      requires totalDownloadingBlocks < TOTAL_DOWNLOAD_BLOCKS && chainClient.Some?
      modifies this`downloadChain, this`goodClients, this`totalDownloadingBlocks
      ensures Valid() && goodClients.Keys == old(goodClients).Keys
      ensures downloadChain == old(downloadChain)[i := old(downloadChain)[i].(client := chainClient)]
    {
      hide Counted, Order, Jobs;
      StartCell(i, chainClient.value);
    }

    method OnChainTimer(v: View)
      requires Valid()
      modifies this`goodClients, this`totalDownloadingBlocks, this`whoDownloadedBlock, this`downloadChain
      modifies this`chainClient, this`chainRequestSent, this`chain, this`chainStartHeight
      ensures Valid() && Kept(old(downloadChain), old(chain), downloadChain, chain)
      ensures old(chainClient).Some? ==> old(chainClient).value !in goodClients
    {
      hide Inv, Jobs, Kept;
      KeptNone(downloadChain, chain);
      if chainClient.Some? {
        OnDisconnect(v, chainClient.value);
      }
    }

    method OnDownloadTimer(v: View)
      requires Valid()
      modifies this`goodClients, this`totalDownloadingBlocks, this`whoDownloadedBlock, this`downloadChain
      modifies this`chainClient, this`chainRequestSent, this`chain, this`chainStartHeight
      ensures Valid() && (old(Stuck()) ==> Stuck())
    {
      hide Inv, Jobs;
      if downloadChain != [] && downloadChain[0].status == Downloading && downloadChain[0].client.Some? && downloadChain[0].protect
         && v.late {
        OnDisconnect(v, downloadChain[0].client.value);
      }
    }

    // ----- the preparing threads, one locked section at a time -----

    /** Steps of the preparing threads until no job is left. */
    ghost function ToDo(): nat
      reads this`work, this`inFlight
    {
      2 * |work| + |inFlight|
    }

    method WorkerTake() returns (wo: Option<Block>)
      requires Valid()
      modifies this`work, this`inFlight
      ensures Valid() && Jobs() == old(Jobs())
      ensures wo.Some? <==> old(work) != []
      ensures wo.Some? ==> wo.value == old(work)[0] && work == old(work)[1..] && inFlight == old(inFlight) + multiset{wo.value}
      ensures wo.Some? ==> ToDo() == old(ToDo()) - 1
    {
      if work == [] {
        return None;
      }
      hide Inv;
      ghost var before := Contents();
      ghost var was, flying := work, inFlight;
      wo := Some(work[0]);
      work := work[1..];
      inFlight := inFlight + multiset{wo.value};
      assert was == [wo.value] + work;
      JobsFirst(wo.value, work);
      MoreJobs(flying, wo.value);
      assert Jobs() == before.jobs;
      assert Contents() == before;
    }

    method WorkerFinish(b: Block)
      requires Valid() && b in inFlight
      modifies this`inFlight, this`preparedBlocks
      ensures Valid() && Jobs() == old(Jobs())
      ensures preparedBlocks == old(preparedBlocks)[b.bid := b] && inFlight == old(inFlight) - multiset{b}
      ensures ToDo() == old(ToDo()) - 1
    {
      hide Inv;
      ghost var before := Contents();
      ghost var was, kept := inFlight, preparedBlocks.Keys;
      inFlight := inFlight - multiset{b};
      preparedBlocks := preparedBlocks[b.bid := b];
      FewerJobs(was, b);
      assert Jobs() == before.jobs;
      assert Contents() == before;
    }

    // ----- on_idle -----

    method FindPreparing(bid: Hash) returns (found: Option<nat>)
      ensures found.Some? ==> found.value < |downloadChain| && WaitsFor(downloadChain[found.value], bid)
                              && forall j :: 0 <= j < found.value ==> !WaitsFor(downloadChain[j], bid)
      ensures found.None? ==> forall i :: 0 <= i < |downloadChain| ==> !WaitsFor(downloadChain[i], bid)
    {
      for i := 0 to |downloadChain|
        invariant forall j :: 0 <= j < i ==> !WaitsFor(downloadChain[j], bid)
      {
        if WaitsFor(downloadChain[i], bid) {
          return Some(i);
        }
      }
      return None;
    }

    ghost function Unfinished(): set<Hash>
      reads this`work, this`inFlight
    {
      QueuedBids(work) + BidsOf(inFlight)
    }

    /** One prepared block put into the cell that waits for it. */
    method CollectOne(k: Hash, b: Block, ghost todo: set<Hash>)
      requires b.bid == k && k in todo
      requires Inv(Contents().(jobs := Unfinished() + todo))
      modifies this`downloadChain
      ensures Inv(Contents().(jobs := Unfinished() + (todo - {k})))
      ensures downloadChain == CollectAt(old(downloadChain), k, b)
    {
      hide Order;
      ghost var d := Contents().(jobs := Unfinished() + (todo - {k}));
      assert d.jobs + {k} == Unfinished() + todo;
      PreparingFree(Cells());
      var found := FindPreparing(k);
      CollectAtIs(downloadChain, k, b, found);
      hide Counted, CollectAt;
      CollectOrder(d, k, b, found);
      if found.Some? {
        var c := downloadChain[found.value].(status := Prepared, block := Some(b));
        RelabelCounted(Cells(), found.value, c);
        downloadChain := downloadChain[found.value := c];
      }
    }

    /** Every prepared block goes to the first cell that waits for it. */
    method CollectPrepared()
      requires Valid()
      modifies this`downloadChain, this`preparedBlocks
      ensures Valid() && preparedBlocks == map[] && Jobs() == Unfinished()
      ensures downloadChain == Collected(old(downloadChain), old(preparedBlocks))
    {
      hide Inv, Collected;
      assert Jobs() == Unfinished() + preparedBlocks.Keys;
      CollectAll(preparedBlocks);
      preparedBlocks := map[];
      assert Jobs() == Unfinished() + {};
    }

    method CollectAll(m: map<Hash, Block>)
      requires Inv(Contents().(jobs := Unfinished() + m.Keys)) && forall k :: k in m ==> m[k].bid == k
      modifies this`downloadChain
      ensures Inv(Contents().(jobs := Unfinished() + {}))
      ensures downloadChain == Collected(old(downloadChain), m)
    {
      hide Inv, CollectAt, Collected, Unfinished;
      var todo := m;
      while todo != map[]
        invariant forall k :: k in todo ==> todo[k].bid == k
        invariant Inv(Contents().(jobs := Unfinished() + todo.Keys))
        invariant Collected(downloadChain, todo) == Collected(old(downloadChain), m)
        decreases |todo|
      {
        var k := Least(todo.Keys);
        CollectedNext(downloadChain, todo);
        CollectOne(k, todo[k], todo.Keys);
        assert (todo - {k}).Keys == todo.Keys - {k};
        todo := todo - {k};
      }
      CollectedNone(downloadChain);
      assert todo.Keys == {};
    }

    method PopPrepared() returns (b: Block)
      requires Valid() && downloadChain != [] && downloadChain[0].status == Prepared
      modifies this`downloadChain, this`delivered
      ensures Valid() && downloadChain == old(downloadChain)[1..]
      ensures delivered == old(delivered) + [b.bid] && b.bid == old(downloadChain)[0].bid
    {
      PreparingFree(Cells());
      RightFirst(Contents());
      hide Counted, Order, Jobs;
      PopFrontCounted(Cells());
      PopOrder(Contents());
      b := downloadChain[0].block.value;
      delivered := delivered + [downloadChain[0].bid];
      downloadChain := downloadChain[1..];
    }

    /** The first block of the window can go to add_block at the next on_idle. */
    ghost predicate FrontHere()
      reads this
    {
      && downloadChain != []
      && (downloadChain[0].status == Prepared || (downloadChain[0].status == Preparing && downloadChain[0].bid in preparedBlocks))
    }

    /** It has arrived and no thread works on it any more. */
    ghost predicate FrontDone()
      reads this
    {
      && downloadChain != [] && downloadChain[0].status in {Preparing, Prepared}
      && downloadChain[0].bid !in Unfinished()
    }

    /** It has arrived, but nothing will bring it prepared. */
    ghost predicate Stuck()
      reads this
    {
      downloadChain != [] && downloadChain[0].status == Preparing && downloadChain[0].bid !in Jobs()
    }

    /** Prepared blocks at the front of the window go to add_block. Whatever
        the order they arrived or were prepared in, their hashes are the next
        ones of the chain that was asked for. Some do exactly when the first one
        is prepared; a first cell that is stuck stays so. */
    method OnIdle(v: View, limit: nat) returns (handed: seq<Block>)
      requires Valid()
      modifies this`goodClients, this`totalDownloadingBlocks, this`whoDownloadedBlock, this`downloadChain
      modifies this`chainClient, this`chainRequestSent, this`chain, this`chainStartHeight
      modifies this`preparedBlocks, this`delivered
      ensures Valid()
      ensures delivered == old(delivered) + BlockBids(handed) && delivered <= source
      ensures limit > 0 ==> (handed != [] <==> old(FrontHere()))
      ensures limit > 0 && old(FrontDone()) && !old(Stuck()) ==> handed != []
      ensures handed != [] ==> old(downloadChain) != [] && handed[0].bid == old(downloadChain)[0].bid
      ensures old(Stuck()) ==> handed == [] && Stuck()
    {
      FrontCollected(downloadChain, preparedBlocks);
      hide Inv, Collected;
      CollectPrepared();
      handed := HandOver(v, limit);
      DeliveredIn(Contents());
    }

    /** The prepared blocks at the front, as far as the time goes. */
    method HandOver(v: View, limit: nat) returns (handed: seq<Block>)
      requires Valid()
      modifies this`goodClients, this`totalDownloadingBlocks, this`whoDownloadedBlock, this`downloadChain
      modifies this`chainClient, this`chainRequestSent, this`chain, this`chainStartHeight, this`delivered
      ensures Valid() && delivered == old(delivered) + BlockBids(handed)
      ensures limit > 0 ==> (handed != [] <==> old(downloadChain) != [] && old(downloadChain)[0].status == Prepared)
      ensures handed != [] ==> old(downloadChain) != [] && old(downloadChain)[0].status == Prepared
                               && handed[0].bid == old(downloadChain)[0].bid
      ensures handed == [] ==> downloadChain == old(downloadChain)
    {
      hide Inv, Jobs;
      handed := [];
      ghost var before := downloadChain;
      while downloadChain != [] && downloadChain[0].status == Prepared && |handed| < limit
        invariant Valid() && delivered == old(delivered) + BlockBids(handed)
        invariant handed == [] ==> downloadChain == before
        invariant handed != [] ==> before != [] && before[0].status == Prepared && handed[0].bid == before[0].bid
        decreases |downloadChain|
      {
        var b := PopPrepared();
        assert (handed + [b])[..|handed|] == handed;
        handed := handed + [b];
      }
      if handed != [] {
        AdvanceDownload(v);
      }
    }
  }

  /** No cell is stuck while no hash of the chain comes twice. */
  lemma DistinctNotStuck(d: DownloaderV11)
    requires d.Valid() && Distinct(d.source)
    ensures !d.Stuck()
  {
    hide Counted, Limits, DownloaderV11.Jobs;
  }

  // ----- a chain with one hash twice -----

  ghost predicate TwoCells(d: DownloaderV11, h: Hash)
    reads d
  {
    && d.Valid() && d.source == [h, h] && d.work == [] && d.inFlight == multiset{} && d.preparedBlocks == map[]
    && |d.downloadChain| == 2 && d.downloadChain[0].bid == d.downloadChain[1].bid == h
  }

  method OpenTwice(h: Hash) returns (d: DownloaderV11)
    ensures fresh(d) && TwoCells(d, h) && Fresh(d.downloadChain, 0) && 1 in d.goodClients && d.totalDownloadingBlocks == 0
  {
    hide Inv, DownloaderV11.Jobs, Fresh, Bids;
    d := new DownloaderV11();
    d.Admit(1);
    d.AskChain(1);
    d.TakeChain(10, [h, h], _ => false);
    d.FillWindow();
    NoneYet(d.chain, d.downloadChain, h);
  }

  /** Both cells ask client 1 for the same block. */
  method AskTwice(h: Hash) returns (d: DownloaderV11)
    ensures fresh(d) && TwoCells(d, h)
  {
    d := OpenTwice(h);
    hide Inv, DownloaderV11.Jobs;
    d.StartCell(0, 1);
    d.StartCell(1, 1);
  }

  lemma NoneYet(chain: seq<Hash>, cells: seq<Cell>, h: Hash)
    requires Bids(cells) + chain == Bids([]) + [h, h] && (|cells| == TOTAL_DOWNLOAD_WINDOW || chain == [])
    ensures |cells| == 2 && cells[0].bid == cells[1].bid == h
  {
    assert Bids([]) + [h, h] == [h, h];
    assert |Bids(cells) + chain| == 2;
    assert Bids(cells) == [h, h];
  }

  /** Two blocks of it arrive and are both prepared before on_idle comes, which
      keeps one of them. The first cell is served, the second one is stuck. */
  method RepeatStuck(h: Hash) returns (d: DownloaderV11, served: Block)
    ensures fresh(d) && d.Valid() && d.source == [h, h] && served.bid == h
    ensures d.Unfinished() == {} && d.Stuck() && d.downloadChain[0].bid == h
  {
    hide Inv, DownloaderV11.Jobs;
    d := AskTwice(h);
    d.Receive(0, Block(h, 0));
    d.Receive(1, Block(h, 0));
    PrepareBoth(d, Block(h, 0));
    CollectsOne(d.downloadChain, h, Block(h, 0));
    d.CollectPrepared();
    served := d.PopPrepared();
    NoJobs(d);
  }

  method PrepareBoth(d: DownloaderV11, b: Block)
    requires d.Valid() && d.work == [b, b] && d.inFlight == multiset{} && d.preparedBlocks == map[]
    modifies d`work, d`inFlight, d`preparedBlocks
    ensures d.Valid() && d.work == [] && d.inFlight == multiset{} && d.preparedBlocks == map[b.bid := b]
  {
    hide Inv, DownloaderV11.Jobs;
    var x := d.WorkerTake();
    var y := d.WorkerTake();
    assert x.value == b && y.value == b;
    d.WorkerFinish(b);
    d.WorkerFinish(b);
  }

  lemma NoJobs(d: DownloaderV11)
    requires d.work == [] && d.inFlight == multiset{} && d.preparedBlocks == map[]
    ensures d.Unfinished() == {} && d.Jobs() == {}
  {
  }

  lemma PreparingFree(w: Window)
    requires Counted(w)
    ensures forall i :: 0 <= i < |w.cells| && w.cells[i].status != Downloading ==> w.cells[i].client.None?
  {
  }

  lemma RightFirst(d: Down)
    requires Order(d) && d.w.cells != [] && d.w.cells[0].status == Prepared
    ensures d.w.cells[0].block.Some? && d.w.cells[0].block.value.bid == d.w.cells[0].bid
  {
  }

  lemma DeliveredIn(d: Down)
    requires Inv(d)
    ensures d.delivered <= d.source
  {
  }

  /** While the chain is asked for there is no cell. */
  lemma NoCells(d: Down)
    requires Inv(d) && d.requestSent
    ensures d.w.cells == []
  {
  }

  lemma NewChain(d: Down, chain: seq<Hash>, startHeight: nat)
    requires Inv(d) && d.requestSent
    ensures Inv(d.(requestSent := false, chain := chain, startHeight := startHeight, source := chain, delivered := []))
  {
    NoCells(d);
    assert Bids(d.w.cells) == [];
  }

  predicate WaitsFor(c: Cell, bid: Hash) {
    c.status == Preparing && c.bid == bid
  }

  /** The first cell that waits for a block gets it. */
  function CollectAt(cells: seq<Cell>, k: Hash, b: Block): (r: seq<Cell>)
    ensures |r| == |cells|
  {
    if cells == [] then []
    else if WaitsFor(cells[0], k) then [cells[0].(status := Prepared, block := Some(b))] + cells[1..]
    else [cells[0]] + CollectAt(cells[1..], k, b)
  }

  /** All prepared blocks in the order of their hashes. */
  function Collected(cells: seq<Cell>, m: map<Hash, Block>): (r: seq<Cell>)
    ensures |r| == |cells|
    decreases |m|
  {
    if m == map[] then cells else
    var k := Least(m.Keys);
    Collected(CollectAt(cells, k, m[k]), m - {k})
  }

  lemma CollectedNext(cells: seq<Cell>, m: map<Hash, Block>)
    requires m != map[]
    ensures var k := Least(m.Keys); Collected(cells, m) == Collected(CollectAt(cells, k, m[k]), m - {k})
  {
  }

  lemma CollectedNone(cells: seq<Cell>)
    ensures Collected(cells, map[]) == cells
  {
  }

  lemma {:induction false} CollectAtIs(cells: seq<Cell>, k: Hash, b: Block, found: Option<nat>)
    requires found.Some? ==> found.value < |cells| && WaitsFor(cells[found.value], k)
                             && forall j :: 0 <= j < found.value ==> !WaitsFor(cells[j], k)
    requires found.None? ==> forall j :: 0 <= j < |cells| ==> !WaitsFor(cells[j], k)
    ensures CollectAt(cells, k, b)
            == if found.Some? then cells[found.value := cells[found.value].(status := Prepared, block := Some(b))] else cells
    decreases |cells|
  {
    if cells != [] && !WaitsFor(cells[0], k) {
      CollectAtIs(cells[1..], k, b, if found.Some? then Some(found.value - 1) else None);
    }
  }

  /** The front cell gets its block exactly when that is prepared, whatever else
      is, and whatever other cells wait for it too. */
  lemma {:induction false} FrontCollected(cells: seq<Cell>, m: map<Hash, Block>)
    ensures cells != [] ==>
              Collected(cells, m)[0]
              == if cells[0].status == Preparing && cells[0].bid in m then cells[0].(status := Prepared, block := Some(m[cells[0].bid]))
                 else cells[0]
    decreases |m|
  {
    if m != map[] && cells != [] {
      var k := Least(m.Keys);
      FrontCollected(CollectAt(cells, k, m[k]), m - {k});
    }
  }

  lemma CollectsOne(cells: seq<Cell>, k: Hash, b: Block)
    requires |cells| == 2 && WaitsFor(cells[0], k)
    ensures var m := map[k := b];
            Collected(cells, m) == [cells[0].(status := Prepared, block := Some(b)), cells[1]]
  {
    var m := map[k := b];
    assert m - {k} == map[];
    assert Collected(CollectAt(cells, k, b), m - {k}) == CollectAt(cells, k, b);
  }

  /** A list of hashes from the first one on whose block is not there. */
  function Unknown(ids: seq<Hash>, hasBlock: Hash -> bool): seq<Hash> {
    if ids == [] || !hasBlock(ids[0]) then ids else Unknown(ids[1..], hasBlock)
  }

  lemma {:induction false} UnknownIs(ids: seq<Hash>, hasBlock: Hash -> bool)
    ensures var r := Unknown(ids, hasBlock);
            && |r| <= |ids| && r == ids[|ids| - |r|..] && (r != [] ==> !hasBlock(r[0]))
            && forall i :: 0 <= i < |ids| - |r| ==> hasBlock(ids[i])
    decreases |ids|
  {
    if ids != [] && hasBlock(ids[0]) {
      UnknownIs(ids[1..], hasBlock);
    }
  }

  /** Who may be asked for the block of a height: a client that has it or, when
      none has, the one whose chain it is. */
  predicate Suited(v: View, good: set<Client>, chainClient: Option<Client>, height: nat, who: Option<Client>) {
    who.Some? && (v.height(who.value) >= height || (who == chainClient && forall c :: c in good ==> v.height(c) < height))
  }

  /** The same cells, some that were to be downloaded given to clients. */
  ghost predicate GivenOut(s: seq<Cell>, t: seq<Cell>, v: View, good: set<Client>, chainClient: Option<Client>) {
    && |s| == |t|
    && forall i :: 0 <= i < |s| ==>
         t[i] == s[i] || (s[i].client.None? && s[i].status == Downloading && t[i] == s[i].(client := t[i].client)
                          && Suited(v, good, chainClient, s[i].height, t[i].client))
  }

  /** From one cell on nobody was asked yet. */
  ghost predicate Fresh(cells: seq<Cell>, n: nat) {
    forall i :: n <= i < |cells| ==> cells[i].status == Downloading && cells[i].client.None?
  }

  /** No client has the block of this cell. */
  ghost predicate Stranded(c: Cell, v: View, good: set<Client>) {
    c.status == Downloading && c.client.None? && forall who :: who in good ==> v.height(who) < c.height
  }

  ghost predicate AllTaken(cells: seq<Cell>) {
    forall i :: 0 <= i < |cells| && cells[i].status == Downloading ==> cells[i].client.Some?
  }

  lemma GivenNone(s: seq<Cell>, v: View, good: set<Client>, chainClient: Option<Client>)
    ensures GivenOut(s, s, v, good, chainClient)
  {
  }

  lemma TakenNone(cells: seq<Cell>)
    ensures AllTaken(cells[..0])
  {
  }

  lemma TakenMore(cells: seq<Cell>, i: nat)
    requires i < |cells| && AllTaken(cells[..i]) && (cells[i].status == Downloading ==> cells[i].client.Some?)
    ensures AllTaken(cells[..i + 1])
  {
    assert forall j :: 0 <= j < i ==> cells[..i + 1][j] == cells[..i][j];
  }

  lemma GivenPrefix(s: seq<Cell>, t: seq<Cell>, n: nat, v: View, good: set<Client>, chainClient: Option<Client>)
    requires GivenOut(s, t, v, good, chainClient) && n <= |t|
    ensures GivenOut(s[..n], t[..n], v, good, chainClient)
  {
  }

  lemma StrandedCell(s: seq<Cell>, t: seq<Cell>, i: nat, v: View, good: set<Client>)
    requires GivenOut(s, t, v, good, None) && i < |t| && Stranded(t[i], v, good)
    ensures Stranded(s[i], v, good)
  {
  }

  /** One cell more, and those before it are not touched. */
  lemma GivenMore(s: seq<Cell>, t: seq<Cell>, i: nat, who: Option<Client>, v: View, good: set<Client>, chainClient: Option<Client>)
    requires GivenOut(s, t, v, good, chainClient) && i < |t| && t[i].client.None? && t[i].status == Downloading
    requires Suited(v, good, chainClient, t[i].height, who)
    ensures var r := t[i := t[i].(client := who)];
            GivenOut(s, r, v, good, chainClient) && r[..i] == t[..i]
  {
  }

  lemma StopLast(w: Window)
    requires w.cells != [] && StopDownload(w, |w.cells| - 1, false).Some?
    ensures var s := StopDownload(w, |w.cells| - 1, false).value.cells;
            |s| == |w.cells| && s[..|w.cells| - 1] == w.cells[..|w.cells| - 1]
  {
  }

  predicate Lags(v: View, c: Client) {
    v.height(c) + GOOD_LAG < v.tipHeight
  }

  /** Why a client may be disconnected: it lags behind, or it holds up a window
      that is full or waits too long. */
  predicate MayLose(v: View, c: Client, size: nat) {
    Lags(v, c) || v.late || size >= TOTAL_DOWNLOAD_WINDOW
  }

  ghost predicate Losses(v: View, before: set<Client>, after: set<Client>, size: nat) {
    after <= before && forall c :: c in before && c !in after ==> MayLose(v, c, size)
  }

  lemma LossesNone(v: View, g: set<Client>, size: nat)
    ensures Losses(v, g, g, size)
  {
  }

  lemma LossesFewer(v: View, g: set<Client>, g': set<Client>, size: nat)
    requires Losses(v, g, g', size)
    ensures g' <= g
  {
  }

  lemma LossesLess(v: View, g: set<Client>, g': set<Client>, size: nat, more: nat)
    requires Losses(v, g, g', size) && size <= more
    ensures Losses(v, g, g', more)
  {
  }

  lemma LossesThen(v: View, g: set<Client>, g': set<Client>, g'': set<Client>, size: nat)
    requires Losses(v, g, g', size) && Losses(v, g', g'', size)
    ensures Losses(v, g, g'', size)
  {
  }

  lemma LossesLeft(v: View, g: set<Client>, g': set<Client>, size: nat, more: nat, who: Client)
    requires Losses(v, g, g', size) && size <= more && who !in g
    ensures Losses(v, g, g', more) && who !in g'
  {
  }

  lemma LossesOne(v: View, g: set<Client>, g': set<Client>, size: nat, who: Client)
    requires Losses(v, g - {who}, g', size) && MayLose(v, who, size)
    ensures Losses(v, g, g', size)
  {
  }

  lemma KeptFill(s: seq<Cell>, chain: seq<Hash>, t: seq<Cell>, chain': seq<Hash>)
    requires s <= t && Fresh(t, |s|) && Bids(t) + chain' == Bids(s) + chain
    ensures Kept(s, chain, t, chain')
  {
    KeptMore(s, chain, t, chain');
  }

  lemma GivenKept(s: seq<Cell>, chain: seq<Hash>, t: seq<Cell>, chain': seq<Hash>, v: View, good: set<Client>, chainClient: Option<Client>)
    requires |t| <= |s| && GivenOut(s[..|t|], t, v, good, chainClient)
    requires chain' == [] || (|t| == |s| && chain' == chain)
    ensures Kept(s, chain, t, chain')
  {
    assert SameCells(s[..|t|], t);
    if chain' == [] {
      KeptCut(s, chain, t);
    } else {
      assert s[..|t|] == s;
      KeptSame(s, t, chain);
    }
  }

  lemma QueuedNext(cells: seq<Cell>, who: Client, blocks: seq<Option<Block>>, n: nat)
    requires n < |blocks|
    ensures blocks[n].None? ==> Queued(cells, who, blocks[n..]) == [] && Served(cells, who, blocks[n..]) == cells
    ensures blocks[n].Some? ==>
              var b := blocks[n].value;
              var rest := Queued(ServeOne(cells, who, b.bid), who, blocks[n + 1..]);
              && Queued(cells, who, blocks[n..]) == (if Asked(cells, who, b.bid) then [b] + rest else rest)
              && Served(cells, who, blocks[n..]) == Served(ServeOne(cells, who, b.bid), who, blocks[n + 1..])
  {
    assert blocks[n..][1..] == blocks[n + 1..];
  }

  lemma QueuedEnd(cells: seq<Cell>, who: Client, blocks: seq<Option<Block>>)
    ensures Queued(cells, who, blocks[|blocks|..]) == [] && Served(cells, who, blocks[|blocks|..]) == cells
  {
  }

  lemma QueuedFront(work: seq<Block>, b: Block, rest: seq<Block>)
    ensures work + ([b] + rest) == (work + [b]) + rest
  {
  }

  /** No cell waits for this client that did not before. */
  ghost predicate NoNewAsk(s: seq<Cell>, t: seq<Cell>, who: Client) {
    |t| <= |s| && forall i, k :: 0 <= i < |t| && Awaits(t[i], who, k) ==> Awaits(s[i], who, k)
  }

  lemma NoNewAsks(s: seq<Cell>, t: seq<Cell>, who: Client)
    ensures NoNewAsk(s, s, who)
    ensures NoNewAsk(s, t, who) ==> forall k :: Asked(t, who, k) ==> Asked(s, who, k)
  {
    hide Awaits;
  }

  lemma NoNewAskCut(s: seq<Cell>, t: seq<Cell>, n: nat, who: Client)
    requires NoNewAsk(s, t, who) && n <= |t|
    ensures NoNewAsk(s, t[..n], who)
  {
  }

  lemma StopKeepsRest(w: Window, i: nat, success: bool, c: Cell)
    requires i < |w.cells| && StopDownload(w, i, success).Some?
    ensures var s := StopDownload(w, i, success).value;
            && |s.cells| == |w.cells| && s.cells[i].bid == w.cells[i].bid && s.cells[i].height == w.cells[i].height
            && s.cells[i := c] == w.cells[i := c]
  {
  }

  ghost function QueuedBids(work: seq<Block>): set<Hash> {
    set b | b in work :: b.bid
  }

  ghost function BidsOf(bs: multiset<Block>): set<Hash> {
    set b | b in bs :: b.bid
  }

  lemma FewerJobs(was: multiset<Block>, b: Block)
    requires b in was
    ensures BidsOf(was) == BidsOf(was - multiset{b}) + {b.bid}
  {
    forall k | k in BidsOf(was)
      ensures k in BidsOf(was - multiset{b}) + {b.bid}
    {
      var x :| x in was && x.bid == k;
      assert x == b || x in was - multiset{b};
    }
    assert forall x :: x in was - multiset{b} ==> x in was;
  }

  lemma MoreJobs(was: multiset<Block>, b: Block)
    ensures BidsOf(was + multiset{b}) == BidsOf(was) + {b.bid}
  {
    assert forall x :: x in was + multiset{b} <==> x in was || x == b;
  }

  lemma JobsFirst(b: Block, work: seq<Block>)
    ensures QueuedBids([b] + work) == QueuedBids(work) + {b.bid}
  {
    assert forall x :: x in [b] + work <==> x == b || x in work;
  }

  lemma JobsMore(work: seq<Block>, b: Block)
    ensures QueuedBids(work + [b]) == QueuedBids(work) + {b.bid}
  {
    assert forall x :: x in work + [b] <==> x == b || x in work;
  }

  lemma AllSame(cells: seq<Cell>)
    ensures SameCells(cells, cells)
  {
  }

  lemma SmallerSet(s: set<Client>, t: set<Client>)
    requires s <= t
    ensures |s| <= |t| && (s < t ==> |s| < |t|)
  {
    var rest := t - s;
    assert t == s + rest;
  }

  function Protected(cells: seq<Cell>, who: Client): seq<Cell>
    decreases |cells|
  {
    if cells == [] then [] else
    var c := cells[|cells| - 1];
    Protected(cells[..|cells| - 1], who) + [if c.client == Some(who) then c.(protect := true) else c]
  }

  lemma {:induction false} ProtectedIs(cells: seq<Cell>, who: Client)
    ensures var r := Protected(cells, who);
            && SameCells(cells, r)
            && forall i :: 0 <= i < |r| ==> r[i] == if cells[i].client == Some(who) then cells[i].(protect := true) else cells[i]
    decreases |cells|
  {
    if cells != [] {
      ProtectedIs(cells[..|cells| - 1], who);
    }
  }

  lemma {:induction false} ProtectedCounts(cells: seq<Cell>, who: Client, c: Client)
    ensures Count(Protected(cells, who), c) == Count(cells, c) && Busy(Protected(cells, who)) == Busy(cells)
    decreases |cells|
  {
    if cells != [] {
      ProtectedCounts(cells[..|cells| - 1], who, c);
      ProtectedIs(cells, who);
      ProtectedIs(cells[..|cells| - 1], who);
      var r := Protected(cells, who);
      assert r[..|r| - 1] == Protected(cells[..|cells| - 1], who);
    }
  }

  lemma ProtectedCounted(w: Window, who: Client)
    requires Counted(w)
    ensures Counted(w.(cells := Protected(w.cells, who)))
  {
    ProtectedIs(w.cells, who);
    ProtectedCounts(w.cells, who, 0);
    forall c
      ensures Count(Protected(w.cells, who), c) == Count(w.cells, c)
    {
      ProtectedCounts(w.cells, who, c);
    }
  }

  lemma PushBids(cells: seq<Cell>, c: Cell, chain: seq<Hash>)
    requires chain != [] && c.bid == chain[0]
    ensures Bids(cells + [c]) + chain[1..] == Bids(cells) + chain
  {
    BidsJoin(cells, [c]);
    assert Bids([c]) == [c.bid];
  }

  lemma StillLightest(good: map<Client, nat>, who: seq<Client>, was: Client, now: Client)
    requires was in good && now in good && Lighter(good, who, now, was)
    ensures forall c :: c in good && !Lighter(good, who, c, was) ==> !Lighter(good, who, c, now)
  {
    forall c | c in good && !Lighter(good, who, c, was)
      ensures !Lighter(good, who, c, now)
    {
      LighterTransitive(good[now], good[was], good[c], Speed(who, now), Speed(who, was), Speed(who, c));
    }
  }
}
