// WalletPreparatorMulticore: blocks handed to worker threads by height, and
// the main thread that fetches them prepared. Each locked section is one step.
module WalletPrep {
  import opened Basics

  type Tid = nat
  type Height = nat
  type Raw = nat
  type SecretKey = nat

  /** A block prepared with a view key. */
  datatype Prepared = Prepared(raw: Raw, key: SecretKey)

  datatype Job = Job(height: Height, raw: Raw, key: SecretKey, generation: nat)

  /** The shared fields and the workers' variables. The rest is history: the
      blocks of the latest start_work, their first height, and the heights
      fetched since. */
  datatype State = State(blocks: seq<Raw>, startHeight: Height, secretKey: SecretKey, workCounter: nat,
                         preparedBlocks: map<Height, Prepared>, workers: map<Tid, Job>,
                         given: seq<Raw>, base: Height, fetched: set<Height>)

  datatype Event =
    | Cancel
    | StartWork(base: Height, blocks: seq<Raw>, key: SecretKey)
    | Take(worker: Tid)
    | Finish(worker: Tid)
    | Fetch(height: Height)

  const START := State([], 0, 0, 0, map[], map[], [], 0, {})

  /** None: the step is not possible now. */
  function Step(s: State, e: Event): Option<State> {
    match e
    case Cancel =>
      Some(s.(blocks := [], startHeight := 0, preparedBlocks := map[], workCounter := s.workCounter + 1,
              given := [], base := 0, fetched := {}))
    case StartWork(base, blocks, key) =>
      Some(s.(blocks := blocks, startHeight := base, secretKey := key, workCounter := s.workCounter + 1,
              given := blocks, base := base, fetched := {}))
    case Take(t) =>
      if t in s.workers || s.blocks == [] then None
      else Some(s.(workers := s.workers[t := Job(s.startHeight, s.blocks[0], s.secretKey, s.workCounter)],
                   startHeight := s.startHeight + 1, blocks := s.blocks[1..]))
    case Finish(t) =>
      if t !in s.workers then None else
      var j := s.workers[t];
      var idle := s.(workers := s.workers - {t});
      if j.generation != s.workCounter then Some(idle)
      else Some(idle.(preparedBlocks := s.preparedBlocks[j.height := Prepared(j.raw, j.key)]))
    case Fetch(h) =>
      if h !in s.preparedBlocks then None
      else Some(s.(preparedBlocks := s.preparedBlocks - {h}, fetched := s.fetched + {h}))
  }

  function Run(s: State, es: seq<Event>): Option<State>
    decreases |es|
  {
    if es == [] then Some(s) else
    var m :- Run(s, es[..|es| - 1]);
    Step(m, es[|es| - 1])
  }

  lemma {:induction false} RunJoin(s: State, es: seq<Event>, fs: seq<Event>)
    ensures Run(s, es + fs) == (var m := Run(s, es); if m.None? then None else Run(m.value, fs))
    decreases |fs|
  {
    if fs == [] {
      assert es + fs == es;
    } else {
      assert (es + fs)[..|es + fs| - 1] == es + fs[..|fs| - 1];
      RunJoin(s, es, fs[..|fs| - 1]);
    }
  }

  lemma RunOne(s: State, e: Event)
    ensures Run(s, [e]) == Step(s, e)
  {
    assert [e][..0] == [];
  }

  /** get_ready_work: None is "goes on waiting". */
  function Ready(s: State, h: Height): Option<Prepared> {
    if h in s.preparedBlocks then Some(s.preparedBlocks[h]) else None
  }

  // ----- the invariant -----

  ghost predicate Current(s: State, j: Job) {
    j.generation == s.workCounter
  }

  /** The queue is the rest of the blocks, from the height it says. */
  ghost predicate Queue(s: State) {
    s.startHeight + |s.blocks| == s.base + |s.given| && s.base <= s.startHeight && s.blocks == s.given[s.startHeight - s.base..]
  }

  /** What a block of the current work should become. */
  ghost predicate Rightly(s: State, h: Height, p: Prepared)
    requires Queue(s)
  {
    s.base <= h < s.startHeight && p == Prepared(s.given[h - s.base], s.secretKey)
  }

  ghost predicate Workers(s: State)
    requires Queue(s)
  {
    && (forall t :: t in s.workers ==> s.workers[t].generation <= s.workCounter)
    && (forall t :: t in s.workers && Current(s, s.workers[t]) ==> Rightly(s, s.workers[t].height, Prepared(s.workers[t].raw, s.workers[t].key)))
    && (forall t, u :: t in s.workers && u in s.workers && t != u && Current(s, s.workers[t]) && Current(s, s.workers[u]) ==>
          s.workers[t].height != s.workers[u].height)
  }

  ghost predicate Flying(s: State, h: Height) {
    exists t :: t in s.workers && Current(s, s.workers[t]) && s.workers[t].height == h
  }

  ghost predicate Inv(s: State) {
    Queue(s) && Workers(s)
  }

  /** Every height taken from the queue is with a worker, prepared or fetched,
      and only one of these. */
  ghost predicate Whole(s: State)
    requires Queue(s)
  {
    && (forall h :: h in s.preparedBlocks ==> Rightly(s, h, s.preparedBlocks[h]) && h !in s.fetched && !Flying(s, h))
    && (forall h :: h in s.fetched ==> s.base <= h < s.startHeight && !Flying(s, h))
    && (forall h :: s.base <= h < s.startHeight ==> Flying(s, h) || h in s.preparedBlocks || h in s.fetched)
  }

  /** The steps that keep a whole state whole or make it so. */
  ghost predicate Heals(s: State, e: Event)
    requires Queue(s)
  {
    match e
    case Cancel => true
    case StartWork(_, _, _) => s.preparedBlocks == map[]
    case _ => Whole(s)
  }

  lemma TakeKeeps(s: State, t: Tid)
    requires Inv(s) && t !in s.workers && s.blocks != []
    ensures Inv(Step(s, Take(t)).value)
    ensures Whole(s) ==> Whole(Step(s, Take(t)).value)
  {
    var r := Step(s, Take(t)).value;
    forall h
      ensures Flying(r, h) <==> Flying(s, h) || h == s.startHeight
    {
      if h == s.startHeight {
        assert r.workers[t].height == h;
      }
      if Flying(s, h) {
        var u :| u in s.workers && Current(s, s.workers[u]) && s.workers[u].height == h;
        assert u in r.workers && r.workers[u] == s.workers[u];
      }
    }
    assert !Flying(s, s.startHeight);
  }

  lemma FinishKeeps(s: State, t: Tid)
    requires Inv(s) && t in s.workers
    ensures Inv(Step(s, Finish(t)).value)
    ensures Whole(s) ==> Whole(Step(s, Finish(t)).value)
  {
    var r := Step(s, Finish(t)).value;
    assert Inv(r) by { hide Whole, Flying; }
    FinishFlying(s, t);
    if Whole(s) {
      if Current(s, s.workers[t]) {
        FinishWhole(s, t);
      } else {
        hide Flying;
        assert Whole(r);
      }
    }
  }

  lemma FinishFlying(s: State, t: Tid)
    requires Inv(s) && t in s.workers
    ensures var r := Step(s, Finish(t)).value;
            forall h :: Flying(r, h) <==> Flying(s, h) && !(Current(s, s.workers[t]) && h == s.workers[t].height)
    ensures Current(s, s.workers[t]) ==> Flying(s, s.workers[t].height)
  {
    hide Whole;
    var r := Step(s, Finish(t)).value;
    var j := s.workers[t];
    forall h | Flying(s, h) && !(Current(s, j) && h == j.height)
      ensures Flying(r, h)
    {
      var u :| u in s.workers && Current(s, s.workers[u]) && s.workers[u].height == h;
      assert u in r.workers && r.workers[u] == s.workers[u];
    }
  }

  lemma FinishWhole(s: State, t: Tid)
    requires Inv(s) && t in s.workers && Current(s, s.workers[t]) && Whole(s)
    ensures Whole(Step(s, Finish(t)).value)
  {
    FinishFlying(s, t);
    assert Rightly(s, s.workers[t].height, Prepared(s.workers[t].raw, s.workers[t].key));
    hide Flying, Workers;
  }

  lemma FetchKeeps(s: State, h: Height)
    requires Inv(s) && h in s.preparedBlocks
    ensures Inv(Step(s, Fetch(h)).value)
    ensures Whole(s) ==> Whole(Step(s, Fetch(h)).value)
  {
    var r := Step(s, Fetch(h)).value;
    assert forall k :: Flying(r, k) <==> Flying(s, k);
  }

  lemma StartKeeps(s: State, base: Height, blocks: seq<Raw>, key: SecretKey)
    requires Inv(s)
    ensures Inv(Step(s, StartWork(base, blocks, key)).value)
    ensures s.preparedBlocks == map[] ==> Whole(Step(s, StartWork(base, blocks, key)).value)
  {
  }

  lemma CancelKeeps(s: State)
    requires Inv(s)
    ensures Inv(Step(s, Cancel).value) && Whole(Step(s, Cancel).value)
  {
  }

  lemma StepKeeps(s: State, e: Event)
    requires Inv(s) && Step(s, e).Some?
    ensures Inv(Step(s, e).value)
    ensures Heals(s, e) ==> Whole(Step(s, e).value)
  {
    hide Whole, Workers;
    match e
    case Cancel => CancelKeeps(s);
    case StartWork(base, blocks, key) => StartKeeps(s, base, blocks, key);
    case Take(t) => TakeKeeps(s, t);
    case Finish(t) => FinishKeeps(s, t);
    case Fetch(h) => FetchKeeps(s, h);
  }

  lemma {:induction false} RunKeeps(s: State, es: seq<Event>)
    requires Inv(s) && Run(s, es).Some?
    ensures Inv(Run(s, es).value)
    decreases |es|
  {
    hide Inv;
    if es != [] {
      RunKeeps(s, es[..|es| - 1]);
      StepKeeps(Run(s, es[..|es| - 1]).value, es[|es| - 1]);
    }
  }

  // ----- what the main thread can rely on -----

  /** Workers go on and prepared blocks are fetched; the work stays the same. */
  ghost predicate SameWork(es: seq<Event>) {
    forall e :: e in es ==> !e.Cancel? && !e.StartWork?
  }

  lemma SameWorkFront(es: seq<Event>)
    requires SameWork(es) && es != []
    ensures SameWork(es[..|es| - 1]) && !es[|es| - 1].Cancel? && !es[|es| - 1].StartWork?
  {
    assert es[|es| - 1] in es;
    assert forall e :: e in es[..|es| - 1] ==> e in es;
  }

  /** The block of height `h` of that work, prepared with its key. */
  ghost predicate OfWork(h: Height, p: Prepared, base: Height, blocks: seq<Raw>, key: SecretKey) {
    base <= h < base + |blocks| && p == Prepared(blocks[h - base], key)
  }

  ghost predicate AllOfWork(prepared: map<Height, Prepared>, base: Height, blocks: seq<Raw>, key: SecretKey) {
    forall h :: h in prepared ==> OfWork(h, prepared[h], base, blocks, key)
  }

  /** While a work goes on its blocks stay what they are, and what is prepared
      right stays so. */
  lemma {:induction false} WorkGoesOn(r: State, es: seq<Event>)
    requires Inv(r) && SameWork(es) && Run(r, es).Some?
    ensures var t := Run(r, es).value;
            && Inv(t) && t.base == r.base && t.given == r.given && t.secretKey == r.secretKey
            && (AllOfWork(r.preparedBlocks, r.base, r.given, r.secretKey) ==> AllOfWork(t.preparedBlocks, r.base, r.given, r.secretKey))
            && (Whole(r) ==> Whole(t))
            && t.fetched == r.fetched + FetchedIn(es)
    decreases |es|
  {
    hide Whole;
    if es != [] {
      SameWorkFront(es);
      var front, e := es[..|es| - 1], es[|es| - 1];
      WorkGoesOn(r, front);
      var m := Run(r, front).value;
      StepKeeps(m, e);
      assert e.Finish? ==> m.workers[e.worker].generation == m.workCounter ==>
          Rightly(m, m.workers[e.worker].height, Prepared(m.workers[e.worker].raw, m.workers[e.worker].key));
    }
  }

  ghost function FetchedIn(es: seq<Event>): set<Height> {
    if es == [] then {} else
    FetchedIn(es[..|es| - 1]) + if es[|es| - 1].Fetch? then {es[|es| - 1].height} else {}
  }

  lemma {:induction false} FetchedAt(es: seq<Event>, h: Height)
    ensures h in FetchedIn(es) <==> Fetch(h) in es
    decreases |es|
  {
    if es != [] {
      FetchedAt(es[..|es| - 1], h);
      assert es == es[..|es| - 1] + [es[|es| - 1]];
    }
  }

  /** A cancel_work, any steps but a new start_work, a start_work, and what the
      workers and the main thread do after it. */
  ghost predicate Restarted(es: seq<Event>, before: seq<Event>, between: seq<Event>, e: Event, after: seq<Event>) {
    && es == before + [Cancel] + between + [e] + after
    && e.StartWork? && SameWork(between) && SameWork(after)
  }

  /** Nothing is prepared and nothing queued until the start_work. */
  lemma {:induction false} NothingBetween(s: State, es: seq<Event>)
    requires Inv(s) && s.blocks == [] && s.preparedBlocks == map[] && SameWork(es) && Run(s, es).Some?
    requires forall t :: t in s.workers ==> !Current(s, s.workers[t])
    ensures var r := Run(s, es).value;
            && r.blocks == [] && r.preparedBlocks == map[] && Inv(r)
            && forall t :: t in r.workers ==> !Current(r, r.workers[t])
    decreases |es|
  {
    if es != [] {
      SameWorkFront(es);
      NothingBetween(s, es[..|es| - 1]);
      hide Workers;
      StepKeeps(Run(s, es[..|es| - 1]).value, es[|es| - 1]);
    }
  }

  /** After cancel_work and start_work the state is whole and of that work. */
  lemma RestartedWhole(es: seq<Event>, before: seq<Event>, between: seq<Event>, e: Event, after: seq<Event>)
    requires Restarted(es, before, between, e, after) && Run(START, es).Some?
    ensures var s := Run(START, es).value;
            && Inv(s) && Whole(s) && s.base == e.base && s.given == e.blocks && s.secretKey == e.key
            && s.fetched == FetchedIn(after)
  {
    var a, b, c := before + [Cancel], before + [Cancel] + between, before + [Cancel] + between + [e];
    RunJoin(START, c, after);
    RunJoin(START, b, [e]);
    RunJoin(START, a, between);
    RunJoin(START, before, [Cancel]);
    var s0 := Run(START, before).value;
    var s1, s2, s3 := Run(START, a).value, Run(START, b).value, Run(START, c).value;
    RunOne(s0, Cancel);
    RunOne(s2, e);
    RunKeeps(START, before);
    CancelledInv(s0);
    hide Run, Whole, Workers;
    NothingBetween(s1, between);
    StartKeeps(s2, e.base, e.blocks, e.key);
    WorkGoesOn(s3, after);
  }

  lemma CancelledInv(s: State)
    requires Inv(s)
    ensures var r := Step(s, Cancel).value;
            Inv(r) && forall t :: t in r.workers ==> !Current(r, r.workers[t])
  {
  }

  /** In every interleaving: after a cancel_work and a start_work,
      get_ready_work returns the block of that height of that work, prepared
      with its key, and each at most once. */
  lemma ReadyExact(es: seq<Event>, before: seq<Event>, between: seq<Event>, e: Event, after: seq<Event>, h: Height)
    requires Restarted(es, before, between, e, after) && Run(START, es).Some?
    ensures var s := Run(START, es).value;
            Ready(s, h).Some? ==> OfWork(h, Ready(s, h).value, e.base, e.blocks, e.key) && Fetch(h) !in after
  {
    RestartedWhole(es, before, between, e, after);
    FetchedAt(after, h);
  }

  /** And a height not fetched yet is at its place in the queue, with a worker,
      or ready. */
  lemma NoneLost(es: seq<Event>, before: seq<Event>, between: seq<Event>, e: Event, after: seq<Event>, h: Height)
    requires Restarted(es, before, between, e, after) && Run(START, es).Some?
    requires e.base <= h < e.base + |e.blocks| && Fetch(h) !in after
    ensures var s := Run(START, es).value;
            || (Ready(s, h).Some? && !Flying(s, h))
            || Flying(s, h)
            || (s.startHeight <= h < s.startHeight + |s.blocks| && s.blocks[h - s.startHeight] == e.blocks[h - e.base])
  {
    RestartedWhole(es, before, between, e, after);
    FetchedAt(after, h);
  }

  // ----- start_work without cancel_work -----

  /** Whatever the workers and the main thread do next, only blocks of that
      work are ready. */
  ghost predicate ServesOnly(r: State, base: Height, blocks: seq<Raw>, key: SecretKey) {
    forall es, h :: SameWork(es) && Run(r, es).Some? && Ready(Run(r, es).value, h).Some? ==>
      OfWork(h, Ready(Run(r, es).value, h).value, base, blocks, key)
  }

  /** And none is ready again once it was fetched. */
  ghost predicate ServesOnce(r: State) {
    forall es, h :: SameWork(es) && Run(r, es).Some? && Fetch(h) in es ==> Ready(Run(r, es).value, h).None?
  }

  /** One thread, over and over. */
  function Rounds(t: Tid, n: nat): seq<Event> {
    if n == 0 then [] else Rounds(t, n - 1) + [Take(t)] + [Finish(t)]
  }

  lemma {:induction false} RoundsRun(s: State, t: Tid, n: nat)
    requires Inv(s) && t !in s.workers && n <= |s.blocks|
    ensures SameWork(Rounds(t, n)) && Run(s, Rounds(t, n)).Some?
    ensures var r := Run(s, Rounds(t, n)).value;
            && t !in r.workers && r.blocks == s.blocks[n..] && r.startHeight == s.startHeight + n && r.workCounter == s.workCounter
            && forall h :: s.startHeight <= h < s.startHeight + n ==> h in r.preparedBlocks
  {
    if n > 0 {
      RoundsRun(s, t, n - 1);
      var m := Run(s, Rounds(t, n - 1)).value;
      RunJoin(s, Rounds(t, n - 1), [Take(t)]);
      RunOne(m, Take(t));
      RunJoin(s, Rounds(t, n - 1) + [Take(t)], [Finish(t)]);
      RunOne(Step(m, Take(t)).value, Finish(t));
    }
  }

  /** A thread that is still at earlier work gives it up. */
  lemma FreeThread(r: State, t: Tid) returns (es: seq<Event>)
    requires Inv(r) && forall u :: u in r.workers ==> !Current(r, r.workers[u])
    ensures SameWork(es) && Run(r, es) == Some(r.(workers := r.workers - {t}))
    ensures Inv(r.(workers := r.workers - {t}))
  {
    if t in r.workers {
      es := [Finish(t)];
      RunOne(r, Finish(t));
      StepKeeps(r, Finish(t));
    } else {
      es := [];
      assert r.workers - {t} == r.workers;
    }
  }

  /** What is ready can be fetched with the thread free after it. */
  lemma FetchedFirst(r: State, h: Height, t: Tid) returns (es: seq<Event>, m: State)
    requires Inv(r) && h in r.preparedBlocks && forall u :: u in r.workers ==> !Current(r, r.workers[u])
    ensures SameWork(es) && Run(r, es) == Some(m) && Fetch(h) in es
    ensures Inv(m) && t !in m.workers && m.blocks == r.blocks && m.startHeight == r.startHeight
  {
    var free := FreeThread(r, t);
    var r1 := r.(workers := r.workers - {t});
    FetchKeeps(r1, h);
    hide Inv;
    RunOne(r1, Fetch(h));
    RunJoin(r, free, [Fetch(h)]);
    es, m := free + [Fetch(h)], Step(r1, Fetch(h)).value;
  }

  lemma StartStale(s: State, base: Height, blocks: seq<Raw>, key: SecretKey)
    requires Inv(s)
    ensures var r := Step(s, StartWork(base, blocks, key)).value;
            && Inv(r) && r.blocks == blocks && r.startHeight == base && r.preparedBlocks == s.preparedBlocks
            && forall u :: u in r.workers ==> !Current(r, r.workers[u])
  {
  }

  lemma SameWorkJoin(es: seq<Event>, fs: seq<Event>)
    requires SameWork(es) && SameWork(fs)
    ensures SameWork(es + fs)
  {
  }

  /** A height that was ready when its work started can be fetched twice. */
  lemma FetchedTwice(s: State, base: Height, blocks: seq<Raw>, key: SecretKey, h: Height, t: Tid) returns (es: seq<Event>)
    requires Inv(s) && h in s.preparedBlocks && base <= h < base + |blocks|
    ensures var r := Step(s, StartWork(base, blocks, key)).value;
            SameWork(es) && Run(r, es).Some? && Fetch(h) in es && Ready(Run(r, es).value, h).Some?
  {
    var r := Step(s, StartWork(base, blocks, key)).value;
    StartStale(s, base, blocks, key);
    var first, m := FetchedFirst(r, h, t);
    hide Inv, Run, Step, Rounds, SameWork;
    var again := Rounds(t, h - base + 1);
    RoundsRun(m, t, h - base + 1);
    RunJoin(r, first, again);
    es := first + again;
    SameWorkJoin(first, again);
  }

  /** What was prepared for earlier work is still there after start_work. Only
      blocks of the new work are served from then on exactly when everything
      prepared already is one of them; and each at most once exactly when
      nothing is prepared. */
  lemma StaleServed(s: State, base: Height, blocks: seq<Raw>, key: SecretKey)
    requires Inv(s)
    ensures var r := Step(s, StartWork(base, blocks, key)).value;
            && (ServesOnly(r, base, blocks, key) <==> AllOfWork(s.preparedBlocks, base, blocks, key))
            && (ServesOnly(r, base, blocks, key) && ServesOnce(r) <==> s.preparedBlocks == map[])
  {
    var r := Step(s, StartWork(base, blocks, key)).value;
    StartKeeps(s, base, blocks, key);
    if AllOfWork(s.preparedBlocks, base, blocks, key) {
      forall es, h | SameWork(es) && Run(r, es).Some? && Ready(Run(r, es).value, h).Some?
        ensures OfWork(h, Ready(Run(r, es).value, h).value, base, blocks, key)
      {
        WorkGoesOn(r, es);
      }
    }
    if ServesOnly(r, base, blocks, key) {
      forall h | h in s.preparedBlocks
        ensures OfWork(h, s.preparedBlocks[h], base, blocks, key)
      {
        assert SameWork([]) && Run(r, []) == Some(r) && Ready(r, h).Some?;
      }
      if ServesOnce(r) && s.preparedBlocks != map[] {
        var h :| h in s.preparedBlocks;
        var es := FetchedTwice(s, base, blocks, key, h, 0);
        assert false;
      }
    }
    if s.preparedBlocks == map[] {
      EmptyServesOnce(r);
    }
  }

  lemma EmptyServesOnce(r: State)
    requires Inv(r) && Whole(r)
    ensures ServesOnce(r)
  {
    forall es, h | SameWork(es) && Run(r, es).Some? && Fetch(h) in es
      ensures Ready(Run(r, es).value, h).None?
    {
      WorkGoesOn(r, es);
      FetchedAt(es, h);
    }
  }

  /** Two works of one block at the same height. */
  lemma StaleRun(first: Raw, second: Raw, h: Height, key: SecretKey, t: Tid)
    requires first != second
    ensures var es := [StartWork(h, [first], key), Take(t), Finish(t), StartWork(h, [second], key)];
            Run(START, es).Some? && Ready(Run(START, es).value, h) == Some(Prepared(first, key))
  {
    var es := [StartWork(h, [first], key), Take(t), Finish(t), StartWork(h, [second], key)];
    assert es[..3] == [StartWork(h, [first], key), Take(t), Finish(t)];
    assert es[..3][..2] == [StartWork(h, [first], key), Take(t)];
    assert es[..3][..2][..1] == [StartWork(h, [first], key)];
    assert es[..3][..2][..1][..0] == [];
    var s1 := Step(START, es[0]).value;
    assert Run(START, es[..3][..2][..1]) == Some(s1);
    var s2 := Step(s1, es[1]).value;
    assert Run(START, es[..3][..2]) == Some(s2);
    var s3 := Step(s2, es[2]).value;
    assert Run(START, es[..3]) == Some(s3);
  }

  // ----- the same in place -----

  class WalletPreparatorMulticore {
    var blocks: seq<Raw>
    var startHeight: Height
    var workSecretKey: SecretKey
    var workCounter: nat
    var preparedBlocks: map<Height, Prepared>
    /** The workers' local variables. */
    var workers: map<Tid, Job>
    ghost var given: seq<Raw>
    ghost var base: Height
    ghost var fetched: set<Height>

    ghost function Contents(): State
      reads this
    {
      State(blocks, startHeight, workSecretKey, workCounter, preparedBlocks, workers, given, base, fetched)
    }

    constructor ()
      ensures Contents() == START
    {
      blocks, startHeight, workSecretKey, workCounter, preparedBlocks, workers := [], 0, 0, 0, map[], map[];
      given, base, fetched := [], 0, {};
    }

    method CancelWork()
      requires Inv(Contents())
      modifies this
      ensures Some(Contents()) == Step(old(Contents()), Cancel) && Inv(Contents())
    {
      StepKeeps(Contents(), Cancel);
      blocks, startHeight := [], 0;
      preparedBlocks := map[];
      workCounter := workCounter + 1;
      given, base, fetched := [], 0, {};
    }

    method BeginWork(first: Height, newBlocks: seq<Raw>, key: SecretKey)
      requires Inv(Contents())
      modifies this
      ensures Some(Contents()) == Step(old(Contents()), StartWork(first, newBlocks, key)) && Inv(Contents())
    {
      StepKeeps(Contents(), StartWork(first, newBlocks, key));
      blocks, startHeight := newBlocks, first;
      workSecretKey := key;
      workCounter := workCounter + 1;
      given, base, fetched := newBlocks, first, {};
    }

    /** The first locked section of thread_run. */
    method TakeBlock(t: Tid) returns (taken: bool)
      requires Inv(Contents()) && t !in workers
      modifies this
      ensures taken == Step(old(Contents()), Take(t)).Some? && Inv(Contents())
      ensures Contents() == if taken then Step(old(Contents()), Take(t)).value else old(Contents())
    {
      if blocks == [] {
        return false;
      }
      StepKeeps(Contents(), Take(t));
      workers := workers[t := Job(startHeight, blocks[0], workSecretKey, workCounter)];
      startHeight := startHeight + 1;
      blocks := blocks[1..];
      return true;
    }

    /** The second one, after the block was prepared. */
    method FinishBlock(t: Tid)
      requires Inv(Contents()) && t in workers
      modifies this
      ensures Some(Contents()) == Step(old(Contents()), Finish(t)) && Inv(Contents())
    {
      StepKeeps(Contents(), Finish(t));
      var j := workers[t];
      workers := workers - {t};
      if j.generation == workCounter {
        preparedBlocks := preparedBlocks[j.height := Prepared(j.raw, j.key)];
      }
    }

    /** One look of get_ready_work; false is "goes on waiting". */
    method GetReadyWork(h: Height) returns (ready: Option<Prepared>)
      requires Inv(Contents())
      modifies this`preparedBlocks, this`fetched
      ensures ready == Ready(old(Contents()), h) && Inv(Contents())
      ensures ready.Some? ==> Some(Contents()) == Step(old(Contents()), Fetch(h))
      ensures ready.None? ==> Contents() == old(Contents())
    {
      if h !in preparedBlocks {
        return None;
      }
      StepKeeps(Contents(), Fetch(h));
      ready := Some(preparedBlocks[h]);
      preparedBlocks := preparedBlocks - {h};
      fetched := fetched + {h};
    }
  }
}
