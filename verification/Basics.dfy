// Failure-carrying results shared by every component.
module Basics {

  /** 2 to the 64. */
  const WORD := 0x1_0000_0000_0000_0000

  /** 2 to the 32. */
  const WORD32 := 0x1_0000_0000

  /** Below it an unlock time is a height. */
  const MAX_BLOCK_HEIGHT := 500000000

  /** The source's `bool f(args, T *out)` calls: None is "returned false". */
  datatype Option<+T> = None | Some(value: T) {
    predicate IsFailure() {
      None?
    }

    function PropagateFailure<U>(): Option<U>
      requires None?
    {
      None
    }

    function Extract(): T
      requires Some?
    {
      value
    }
  }

  /** Error strings of the transaction checks. */
  datatype RedoError =
    | InputKeyimageAlreadySpent
    | InputUnknownType
    | InputInvalidGlobalIndex
    | InputSpendLockedOut
    | InputCorruptedSignatures
    | InputInvalidSignatures

  /** Outcome of a step that may refuse its argument or meet a failed
      `invariant(...)`, which ends the run. */
  datatype Outcome<+T> = Done(value: T) | Refused(error: RedoError) | Dead {
    predicate IsFailure() {
      !Done?
    }

    function PropagateFailure<U>(): Outcome<U>
      requires !Done?
    {
      if Refused? then Refused(error) else Dead
    }

    function Extract(): T
      requires Done?
    {
      value
    }
  }

  function Max(a: int, b: int): int {
    if a < b then b else a
  }

  function Min(a: int, b: int): int {
    if a < b then a else b
  }

  /** No value twice. */
  predicate Distinct(s: seq<nat>) {
    forall i, j :: 0 <= i < j < |s| ==> s[i] != s[j]
  }

  // ----- ordered keys -----

  function Smallest(keys: set<nat>, from: nat): (r: Option<nat>)
    ensures r.Some? ==> r.value in keys && r.value >= from && forall k :: k in keys && k >= from ==> r.value <= k
    ensures r.None? ==> forall k :: k in keys ==> k < from
  {
    var above := set k | k in keys && k >= from;
    assert forall k :: k in keys && k >= from ==> k in above;
    if above == {} then None else
    HasLeast(above);
    var k :| k in above && forall j :: j in above ==> k <= j;
    Some(k)
  }

  lemma HasLeast(s: set<nat>)
    requires s != {}
    ensures exists k :: k in s && forall j :: j in s ==> k <= j
  {
    var k :| k in s;
    var rest := s - {k};
    assert s == rest + {k};
    if rest != {} {
      HasLeast(rest);
      var m :| m in rest && forall j :: j in rest ==> m <= j;
      var least := Min(k, m);
      assert least in s && forall j :: j in s ==> least <= j;
    }
  }

  function Largest(keys: set<nat>): (r: nat)
    requires keys != {}
    ensures r in keys && forall k :: k in keys ==> k <= r
  {
    HasMost(keys);
    var k :| k in keys && forall j :: j in keys ==> j <= k;
    k
  }

  lemma HasMost(s: set<nat>)
    requires s != {}
    ensures exists k :: k in s && forall j :: j in s ==> j <= k
  {
    var k :| k in s;
    var rest := s - {k};
    assert s == rest + {k};
    if rest != {} {
      HasMost(rest);
      var m :| m in rest && forall j :: j in rest ==> j <= m;
      var most := Max(k, m);
      assert most in s && forall j :: j in s ==> j <= most;
    }
  }

  function Least(keys: set<nat>): (r: nat)
    requires keys != {}
    ensures r in keys && forall k :: k in keys ==> r <= k
  {
    HasLeast(keys);
    var k :| k in keys && forall j :: j in keys ==> k <= j;
    k
  }
}
