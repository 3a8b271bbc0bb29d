// RingCheckerMulticore: one queue of ring signatures, any number of worker
// threads, and a main thread that posts a block's signatures and waits for the
// verdict. Each locked section is one step.
module RingChecker {
  import opened Basics
  import opened Redo
  import opened BlockRedo

  type Tid = nat

  /** What a worker holds between its two locked sections. */
  datatype Job = Job(arg: RingArg, generation: nat)

  /** The shared fields, the workers, and what the main thread still has to
      post. The last three are history: the signatures of the latest block,
      those verified for it, and whether it has not been cancelled. */
  datatype State = State(args: seq<RingArg>, readyCounter: nat, totalCounter: nat, errors: seq<RedoError>, workCounter: nat,
                         workers: map<Tid, Job>, todo: seq<RingArg>, block: seq<RingArg>, finished: seq<RingArg>, live: bool)

  datatype Event =
    | Begin(block: seq<RingArg>)
    | Post
    | Cancel
    | Take(worker: Tid)
    | Finish(worker: Tid)

  const START := State([], 0, 0, [], 0, map[], [], [], [], true)

  /** What a worker reports for one signature. */
  function Verdict(rules: Rules, a: RingArg): seq<RedoError> {
    match rules.ring(a.tx, a.input, a.keys)
    case SigOk => []
    case SigCorrupted => [InputCorruptedSignatures]
    case SigInvalid => [InputInvalidSignatures]
  }

  /** None: the step is not possible now. */
  function Step(rules: Rules, s: State, e: Event): Option<State> {
    match e
    case Begin(block) =>
      Some(s.(args := [], errors := [], readyCounter := 0, workCounter := s.workCounter + 1, totalCounter := 0, todo := block,
              block := block, finished := [], live := true))
    case Post =>
      if s.todo == [] then None
      else Some(s.(totalCounter := s.totalCounter + 1, args := s.args + [s.todo[0]], todo := s.todo[1..]))
    case Cancel =>
      Some(s.(args := [], workCounter := s.workCounter + 1, live := false))
    case Take(t) =>
      if t in s.workers || s.args == [] then None
      else Some(s.(args := s.args[1..], workers := s.workers[t := Job(s.args[0], s.workCounter)]))
    case Finish(t) =>
      if t !in s.workers then None else
      var j := s.workers[t];
      var idle := s.(workers := s.workers - {t});
      if j.generation != s.workCounter then Some(idle)
      else Some(idle.(readyCounter := s.readyCounter + 1, errors := s.errors + Verdict(rules, j.arg),
                      finished := s.finished + [j.arg]))
  }

  function Run(rules: Rules, s: State, es: seq<Event>): Option<State>
    decreases |es|
  {
    if es == [] then Some(s) else
    var m :- Run(rules, s, es[..|es| - 1]);
    Step(rules, m, es[|es| - 1])
  }

  /** signatures_valid: None is "goes on waiting". */
  function Answer(s: State): Option<bool> {
    if s.readyCounter != s.totalCounter then None else Some(s.errors == [])
  }

  // ----- the invariant -----

  /** The signatures being verified for one generation. */
  function Flying(workers: map<Tid, Job>, generation: nat): multiset<RingArg>
    decreases |workers|
  {
    if workers == map[] then multiset{} else
    var t := Least(workers.Keys);
    Flying(workers - {t}, generation) + if workers[t].generation == generation then multiset{workers[t].arg} else multiset{}
  }

  function Own(j: Job, generation: nat): multiset<RingArg> {
    if j.generation == generation then multiset{j.arg} else multiset{}
  }

  lemma {:induction false} FlyingWithout(workers: map<Tid, Job>, t: Tid, generation: nat)
    requires t in workers
    ensures Flying(workers, generation) == Flying(workers - {t}, generation) + Own(workers[t], generation)
    decreases |workers|
  {
    var l := Least(workers.Keys);
    if l != t {
      FlyingWithout(workers - {l}, t, generation);
      LeastStays(workers, t);
      assert workers - {l} - {t} == workers - {t} - {l};
    }
  }

  lemma LeastStays(workers: map<Tid, Job>, t: Tid)
    requires t in workers && Least(workers.Keys) != t
    ensures workers - {t} != map[] && Least((workers - {t}).Keys) == Least(workers.Keys)
  {
    assert Least(workers.Keys) in (workers - {t}).Keys;
  }

  lemma FlyingWith(workers: map<Tid, Job>, t: Tid, j: Job, generation: nat)
    requires t !in workers
    ensures Flying(workers[t := j], generation) == Flying(workers, generation) + Own(j, generation)
  {
    FlyingWithout(workers[t := j], t, generation);
    assert workers[t := j] - {t} == workers;
  }

  lemma {:induction false} NoneFlying(workers: map<Tid, Job>, generation: nat)
    requires forall t :: t in workers ==> workers[t].generation != generation
    ensures Flying(workers, generation) == multiset{}
    decreases |workers|
  {
    if workers != map[] {
      NoneFlying(workers - {Least(workers.Keys)}, generation);
    }
  }

  function Reports(rules: Rules, done: seq<RingArg>): seq<RedoError>
    decreases |done|
  {
    if done == [] then [] else Reports(rules, done[..|done| - 1]) + Verdict(rules, done[|done| - 1])
  }

  lemma {:induction false} ReportsNone(rules: Rules, done: seq<RingArg>)
    ensures Reports(rules, done) == [] <==> SignaturesValid(rules, done)
    decreases |done|
  {
    if done != [] {
      var front := done[..|done| - 1];
      ReportsNone(rules, front);
      assert done == front + [done[|done| - 1]];
      assert SignaturesValid(rules, done) <==> SignaturesValid(rules, front) && Verdict(rules, done[|done| - 1]) == [];
    }
  }

  /** The main thread has posted the first part of the block, and the counter
      says how much. */
  ghost predicate Posting(s: State) {
    && s.totalCounter + |s.todo| == |s.block| && s.todo == s.block[s.totalCounter..]
  }

  /** Queued, being verified for this block, and verified: together exactly
      what was posted. */
  ghost predicate Conserved(s: State)
    requires s.totalCounter <= |s.block|
  {
    multiset(s.args) + Flying(s.workers, s.workCounter) + multiset(s.finished) == multiset(s.block[..s.totalCounter])
  }

  ghost predicate Inv(rules: Rules, s: State) {
    && Posting(s)
    && (forall t :: t in s.workers ==> s.workers[t].generation <= s.workCounter)
    && (s.live ==> Conserved(s))
    && s.readyCounter == |s.finished|
    && s.errors == Reports(rules, s.finished)
  }

  lemma BeginKeeps(rules: Rules, s: State, block: seq<RingArg>)
    requires Inv(rules, s)
    ensures Inv(rules, Step(rules, s, Begin(block)).value)
  {
    NoneFlying(s.workers, s.workCounter + 1);
  }

  lemma PostKeeps(rules: Rules, s: State)
    requires Inv(rules, s) && s.todo != []
    ensures Inv(rules, Step(rules, s, Post).value)
  {
    assert s.block[..s.totalCounter + 1] == s.block[..s.totalCounter] + [s.todo[0]];
  }

  lemma CancelKeeps(rules: Rules, s: State)
    requires Inv(rules, s)
    ensures Inv(rules, Step(rules, s, Cancel).value)
  {
  }

  lemma TakeKeeps(rules: Rules, s: State, t: Tid)
    requires Inv(rules, s) && t !in s.workers && s.args != []
    ensures Inv(rules, Step(rules, s, Take(t)).value)
  {
    FlyingWith(s.workers, t, Job(s.args[0], s.workCounter), s.workCounter);
    assert s.args == [s.args[0]] + s.args[1..];
  }

  lemma FinishKeeps(rules: Rules, s: State, t: Tid)
    requires Inv(rules, s) && t in s.workers
    ensures Inv(rules, Step(rules, s, Finish(t)).value)
  {
    FlyingWithout(s.workers, t, s.workCounter);
  }

  lemma StepKeeps(rules: Rules, s: State, e: Event)
    requires Inv(rules, s) && Step(rules, s, e).Some?
    ensures Inv(rules, Step(rules, s, e).value)
  {
    hide Inv;
    match e
    case Begin(block) => BeginKeeps(rules, s, block);
    case Post => PostKeeps(rules, s);
    case Cancel => CancelKeeps(rules, s);
    case Take(t) => TakeKeeps(rules, s, t);
    case Finish(t) => FinishKeeps(rules, s, t);
  }

  lemma {:induction false} RunKeeps(rules: Rules, es: seq<Event>)
    requires Run(rules, START, es).Some?
    ensures Inv(rules, Run(rules, START, es).value)
    decreases |es|
  {
    if es != [] {
      RunKeeps(rules, es[..|es| - 1]);
      StepKeeps(rules, Run(rules, START, es[..|es| - 1]).value, es[|es| - 1]);
    }
  }

  // ----- what the main thread can rely on -----

  /** In every interleaving: when signatures_valid answers for a block that was
      posted whole and not cancelled, it says whether every ring signature of
      the block is valid, whatever workers of earlier blocks are still doing. */
  lemma AnswerExact(rules: Rules, es: seq<Event>)
    requires Run(rules, START, es).Some?
    ensures var s := Run(rules, START, es).value;
            s.live && s.todo == [] && Answer(s).Some? ==> Answer(s).value == SignaturesValid(rules, s.block)
  {
    RunKeeps(rules, es);
    var s := Run(rules, START, es).value;
    if s.live && s.todo == [] && Answer(s).Some? {
      AllFinished(rules, s);
      ReportsNone(rules, s.finished);
      SameValid(rules, s.finished, s.block);
    }
  }

  lemma AllFinished(rules: Rules, s: State)
    requires Inv(rules, s) && s.live && s.todo == [] && s.readyCounter == s.totalCounter
    ensures multiset(s.finished) == multiset(s.block)
  {
    assert s.block[..s.totalCounter] == s.block;
    assert |multiset(s.args) + Flying(s.workers, s.workCounter)| + |multiset(s.finished)| == |multiset(s.block)|;
    assert multiset(s.args) + Flying(s.workers, s.workCounter) == multiset{};
  }

  lemma SameValid(rules: Rules, s: seq<RingArg>, t: seq<RingArg>)
    requires multiset(s) == multiset(t)
    ensures SignaturesValid(rules, s) == SignaturesValid(rules, t)
  {
    assert forall a :: a in s <==> a in multiset(s);
    assert forall a :: a in t <==> a in multiset(t);
  }

  /** signatures_valid never waits in vain: with nothing queued and nothing
      being verified for such a block it answers. */
  lemma NoDeadlock(rules: Rules, s: State)
    requires Inv(rules, s) && s.live && s.todo == []
    requires s.args == [] && forall t :: t in s.workers ==> s.workers[t].generation != s.workCounter
    ensures Answer(s).Some?
  {
    NoneFlying(s.workers, s.workCounter);
    assert s.block[..s.totalCounter] == s.block;
    assert |multiset(s.finished)| == |multiset(s.block)|;
  }

  function Remaining(s: State): nat {
    2 * |s.args| + |s.workers|
  }

  /** And there are only so many steps for them to take. */
  lemma WorkersProgress(rules: Rules, s: State, t: Tid, e: Event)
    requires e == Take(t) || e == Finish(t)
    requires Step(rules, s, e).Some?
    ensures Remaining(Step(rules, s, e).value) < Remaining(s)
  {
    if e == Take(t) {
      var w := s.workers[t := Job(s.args[0], s.workCounter)];
      assert w.Keys == s.workers.Keys + {t};
      assert |w| == |s.workers| + 1;
    } else {
      assert s.workers.Keys == (s.workers - {t}).Keys + {t};
      assert |s.workers| == |s.workers - {t}| + 1;
    }
  }

  // ----- the same in place -----

  class RingCheckerMulticore {
    var args: seq<RingArg>
    var readyCounter: nat
    var totalCounter: nat
    var errors: seq<RedoError>
    var workCounter: nat
    /** The workers' and the main thread's local variables. */
    var workers: map<Tid, Job>
    var todo: seq<RingArg>
    ghost var block: seq<RingArg>
    ghost var finished: seq<RingArg>
    ghost var live: bool

    ghost function Contents(): State
      reads this
    {
      State(args, readyCounter, totalCounter, errors, workCounter, workers, todo, block, finished, live)
    }

    constructor ()
      ensures Contents() == START
    {
      args, readyCounter, totalCounter, errors, workCounter := [], 0, 0, [], 0;
      workers, todo := map[], [];
      block, finished, live := [], [], true;
    }

    /** The locked section that begins start_work_get_error for a block whose
        preliminary checks pass. */
    method BeginWork(rules: Rules, signatures: seq<RingArg>)
      requires Inv(rules, Contents())
      modifies this
      ensures Some(Contents()) == Step(rules, old(Contents()), Begin(signatures)) && Inv(rules, Contents())
    {
      StepKeeps(rules, Contents(), Begin(signatures));
      args := [];
      errors := [];
      readyCounter := 0;
      workCounter := workCounter + 1;
      totalCounter := 0;
      todo := signatures;
      block, finished, live := signatures, [], true;
    }

    method PostOne(rules: Rules)
      requires Inv(rules, Contents()) && todo != []
      modifies this
      ensures Some(Contents()) == Step(rules, old(Contents()), Post) && Inv(rules, Contents())
    {
      StepKeeps(rules, Contents(), Post);
      totalCounter := totalCounter + 1;
      args := args + [todo[0]];
      todo := todo[1..];
    }

    method CancelWork(rules: Rules)
      requires Inv(rules, Contents())
      modifies this
      ensures Some(Contents()) == Step(rules, old(Contents()), Cancel) && Inv(rules, Contents())
    {
      StepKeeps(rules, Contents(), Cancel);
      args := [];
      workCounter := workCounter + 1;
      live := false;
    }

    /** The first locked section of thread_run. */
    method TakeArg(rules: Rules, t: Tid) returns (taken: bool)
      requires Inv(rules, Contents()) && t !in workers
      modifies this
      ensures taken == Step(rules, old(Contents()), Take(t)).Some? && Inv(rules, Contents())
      ensures Contents() == if taken then Step(rules, old(Contents()), Take(t)).value else old(Contents())
    {
      if args == [] {
        return false;
      }
      StepKeeps(rules, Contents(), Take(t));
      workers := workers[t := Job(args[0], workCounter)];
      args := args[1..];
      return true;
    }

    /** The second one, after the signature was checked. */
    method FinishArg(rules: Rules, t: Tid)
      requires Inv(rules, Contents()) && t in workers
      modifies this
      ensures Some(Contents()) == Step(rules, old(Contents()), Finish(t)) && Inv(rules, Contents())
    {
      StepKeeps(rules, Contents(), Finish(t));
      var j := workers[t];
      var result := rules.ring(j.arg.tx, j.arg.input, j.arg.keys);
      workers := workers - {t};
      if j.generation == workCounter {
        readyCounter := readyCounter + 1;
        if result == SigCorrupted {
          errors := errors + [InputCorruptedSignatures];
        }
        if result == SigInvalid {
          errors := errors + [InputInvalidSignatures];
        }
        assert Verdict(rules, j.arg) == [] ==> old(errors) + Verdict(rules, j.arg) == old(errors);
        finished := finished + [j.arg];
      }
    }
  }
}
