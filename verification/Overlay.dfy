// DeltaState overlays: changes held back above a parent state, and the
// refinement between reading through an overlay and applying it.
module Overlay {
  import opened Basics
  import opened ChainLedger

  datatype PushedOutput = PushedOutput(unlock: nat, key: PublicKey)

  datatype Delta = Delta(
    keyImages: map<KeyImage, Height>,
    pushed: map<Amount, seq<PushedOutput>>,
    spends: seq<OutKey>,
    height: Height)
  {
    function Pushed(a: Amount): seq<PushedOutput> {
      if a in pushed then pushed[a] else []
    }

    /** Every key image was stored with the overlay's own block height. */
    ghost predicate Uniform() {
      forall ki :: ki in keyImages ==> keyImages[ki] == height
    }
  }

  function EmptyDelta(h: Height): Delta {
    Delta(map[], map[], [], h)
  }

  /** A state read through any number of overlays, the chain at the bottom. */
  datatype View = Base(ledger: Ledger) | Over(delta: Delta, parent: View)

  // ----- reads -----

  function ReadKeyImage(v: View, ki: KeyImage): Option<Height> {
    match v
    case Base(l) => if ki in l.keyImages then Some(l.keyImages[ki]) else None
    case Over(d, p) => if ki in d.keyImages then Some(d.height) else ReadKeyImage(p, ki)
  }

  function NextIndex(v: View, a: Amount): nat {
    match v
    case Base(l) => l.Next(a)
    case Over(d, p) => NextIndex(p, a) + |d.Pushed(a)|
  }

  function ReadOutput(v: View, k: OutKey): Option<OutputRecord> {
    match v
    case Base(l) => if k in l.outs then Some(l.outs[k]) else None
    case Over(d, p) =>
      var pg := NextIndex(p, k.amount);
      if k.index < pg then ReadOutput(p, k)
      else if k.index - pg < |d.Pushed(k.amount)| then
        var o := d.Pushed(k.amount)[k.index - pg];
        Some(OutputRecord(o.unlock, o.key, d.height, false))
      else None
  }

  // ----- writes -----

  /** Storing a key image twice is a failed invariant. */
  function DeltaStore(d: Delta, ki: KeyImage, h: Height): Option<Delta> {
    if ki in d.keyImages then None else Some(d.(keyImages := d.keyImages[ki := h]))
  }

  function DeltaPush(d: Delta, a: Amount, unlock: nat, key: PublicKey): Delta {
    d.(pushed := d.pushed[a := d.Pushed(a) + [PushedOutput(unlock, key)]])
  }

  function DeltaSpend(d: Delta, k: OutKey): Delta {
    d.(spends := d.spends + [k])
  }

  // ----- apply -----

  function Disjoint(m: map<KeyImage, Height>, m': map<KeyImage, Height>): bool {
    m.Keys !! m'.Keys
  }

  function MarkSpent(outs: map<OutKey, OutputRecord>, ks: seq<OutKey>): map<OutKey, OutputRecord> {
    map k | k in outs :: if k in ks then outs[k].(spent := true) else outs[k]
  }

  function NewKeys(d: Delta, l: Ledger): (ks: set<OutKey>)
    ensures forall k :: k in ks <==> l.Next(k.amount) <= k.index < l.Next(k.amount) + |d.Pushed(k.amount)|
  {
    var ks := set a, i | a in d.pushed && l.Next(a) <= i < l.Next(a) + |d.pushed[a]| :: OutKey(a, i);
    assert forall k: OutKey :: k == OutKey(k.amount, k.index);
    ks
  }

  function NewRecord(d: Delta, l: Ledger, k: OutKey): OutputRecord
    requires l.Next(k.amount) <= k.index < l.Next(k.amount) + |d.Pushed(k.amount)|
  {
    var o := d.Pushed(k.amount)[k.index - l.Next(k.amount)];
    OutputRecord(o.unlock, o.key, d.height, false)
  }

  function NewOuts(d: Delta, l: Ledger): map<OutKey, OutputRecord> {
    map k | k in NewKeys(d, l) :: NewRecord(d, l, k)
  }

  function NewNext(d: Delta, l: Ledger): map<Amount, nat> {
    map a | a in l.next.Keys + d.pushed.Keys && l.Next(a) + |d.Pushed(a)| > 0 :: l.Next(a) + |d.Pushed(a)|
  }

  /** Apply onto the chain: key images, then outputs, then spent flags. */
  function ApplyToLedger(d: Delta, l: Ledger): Option<Ledger> {
    if !Disjoint(d.keyImages, l.keyImages) then None else
    Some(Ledger(l.keyImages + d.keyImages, MarkSpent(l.outs + NewOuts(d, l), d.spends), NewNext(d, l)))
  }

  /** Apply onto another overlay. */
  function Merge(d: Delta, under: Delta): Option<Delta> {
    if !Disjoint(d.keyImages, under.keyImages) then None else
    Some(Delta(under.keyImages + d.keyImages,
               map a | a in under.pushed.Keys + d.pushed.Keys :: under.Pushed(a) + d.Pushed(a),
               under.spends + d.spends,
               under.height))
  }

  function Apply(d: Delta, p: View): Option<View> {
    match p
    case Base(l) => var m :- ApplyToLedger(d, l); Some(Base(m))
    case Over(under, pp) => var m :- Merge(d, under); Some(Over(m, pp))
  }

  function Depth(v: View): nat {
    if v.Base? then 0 else 1 + Depth(v.parent)
  }

  lemma ApplyDepth(d: Delta, p: View)
    ensures Apply(d, p).Some? ==> Depth(Apply(d, p).value) == Depth(p)
  {
  }

  /** Applies every overlay, the topmost first, down to the chain. */
  function Collapse(v: View): Option<Ledger>
    decreases Depth(v)
  {
    match v
    case Base(l) => Some(l)
    case Over(d, p) =>
      ApplyDepth(d, p);
      var m :- Apply(d, p);
      Collapse(m)
  }

  // ----- the applied state answers as the overlay did -----

  /** All overlays belong to one block and the chain below is consistent. */
  ghost predicate WellFormed(v: View, h: Height) {
    match v
    case Base(l) => l.Valid()
    case Over(d, p) => d.height == h && d.Uniform() && WellFormed(p, h)
  }

  function Unflagged(r: Option<OutputRecord>): Option<OutputRecord> {
    if r.None? then None else Some(r.value.(spent := false))
  }

  ghost predicate SameAnswers(v: View, w: View) {
    && (forall ki {:trigger ReadKeyImage(v, ki)} {:trigger ReadKeyImage(w, ki)} ::
          ReadKeyImage(v, ki) == ReadKeyImage(w, ki))
    && (forall a {:trigger NextIndex(v, a)} {:trigger NextIndex(w, a)} :: NextIndex(v, a) == NextIndex(w, a))
    && (forall k {:trigger ReadOutput(v, k)} {:trigger ReadOutput(w, k)} ::
          Unflagged(ReadOutput(v, k)) == Unflagged(ReadOutput(w, k)))
  }

  lemma ApplyToLedgerValid(d: Delta, l: Ledger)
    requires l.Valid() && ApplyToLedger(d, l).Some?
    ensures ApplyToLedger(d, l).value.Valid()
    ensures forall a :: ApplyToLedger(d, l).value.Next(a) == l.Next(a) + |d.Pushed(a)|
  {
  }

  /** Where each output of the applied chain comes from. */
  lemma ApplyToLedgerAt(d: Delta, l: Ledger, k: OutKey)
    requires l.Valid() && ApplyToLedger(d, l).Some?
    ensures var m := ApplyToLedger(d, l).value;
            k in m.outs ==>
              m.outs[k] ==
              (var r := if k in l.outs then l.outs[k] else NewRecord(d, l, k);
               if k in d.spends then r.(spent := true) else r)
  {
  }

  lemma ApplyAnswersLedger(d: Delta, l: Ledger)
    requires l.Valid() && d.Uniform() && ApplyToLedger(d, l).Some?
    ensures SameAnswers(Over(d, Base(l)), Base(ApplyToLedger(d, l).value))
  {
    ApplyToLedgerValid(d, l);
    var m := ApplyToLedger(d, l).value;
    var v := Over(d, Base(l));
    forall a ensures NextIndex(v, a) == NextIndex(Base(m), a) {
      assert NextIndex(v, a) == NextIndex(Base(l), a) + |d.Pushed(a)|;
    }
    forall k ensures Unflagged(ReadOutput(v, k)) == Unflagged(ReadOutput(Base(m), k)) {
      assert NextIndex(Base(l), k.amount) == l.Next(k.amount);
      ApplyToLedgerAt(d, l, k);
    }
  }

  lemma MergePushed(d: Delta, under: Delta, a: Amount)
    requires Merge(d, under).Some?
    ensures Merge(d, under).value.Pushed(a) == under.Pushed(a) + d.Pushed(a)
  {
  }

  lemma ApplyAnswersOverlay(d: Delta, under: Delta, pp: View)
    requires d.height == under.height && Merge(d, under).Some?
    ensures SameAnswers(Over(d, Over(under, pp)), Over(Merge(d, under).value, pp))
  {
    var v, w := Over(d, Over(under, pp)), Over(Merge(d, under).value, pp);
    forall a ensures NextIndex(v, a) == NextIndex(w, a) {
      MergePushed(d, under, a);
      assert NextIndex(v, a) == NextIndex(Over(under, pp), a) + |d.Pushed(a)|;
    }
    forall k ensures ReadOutput(v, k) == ReadOutput(w, k) {
      MergePushed(d, under, k.amount);
      assert NextIndex(Over(under, pp), k.amount) == NextIndex(pp, k.amount) + |under.Pushed(k.amount)|;
    }
  }

  /** Reading through an overlay and reading its parent after apply agree,
      whether the parent is the chain or another overlay. */
  lemma ApplyAnswers(d: Delta, p: View, h: Height)
    requires WellFormed(Over(d, p), h) && Apply(d, p).Some?
    ensures SameAnswers(Over(d, p), Apply(d, p).value) && WellFormed(Apply(d, p).value, h)
  {
    match p
    case Base(l) => ApplyAnswersLedger(d, l); ApplyToLedgerValid(d, l);
    case Over(under, pp) => ApplyAnswersOverlay(d, under, pp);
  }

  /** A whole stack of overlays answers as the chain does once all are applied. */
  lemma {:induction false} CollapseAnswers(v: View, h: Height)
    requires WellFormed(v, h) && Collapse(v).Some?
    ensures SameAnswers(v, Base(Collapse(v).value)) && Collapse(v).value.Valid()
    decreases Depth(v)
  {
    if v.Over? {
      ApplyDepth(v.delta, v.parent);
      ApplyAnswers(v.delta, v.parent, h);
      CollapseAnswers(Apply(v.delta, v.parent).value, h);
    }
  }

  // ----- applying a merged overlay is applying one after the other -----

  /** Spent outputs that already exist on the chain below. */
  ghost predicate Below(ks: seq<OutKey>, l: Ledger) {
    forall k :: k in ks ==> k in l.outs
  }

  lemma ApplyMergedAt(d: Delta, under: Delta, l: Ledger, k: OutKey)
    requires l.Valid() && d.height == under.height && Below(under.spends, l)
    requires ApplyToLedger(under, l).Some? && Merge(d, under).Some?
    requires ApplyToLedger(Merge(d, under).value, l).Some? && ApplyToLedger(d, ApplyToLedger(under, l).value).Some?
    ensures var x, y := ApplyToLedger(Merge(d, under).value, l).value, ApplyToLedger(d, ApplyToLedger(under, l).value).value;
            (k in x.outs <==> k in y.outs) && (k in x.outs ==> x.outs[k] == y.outs[k])
  {
    var m, b := ApplyToLedger(under, l).value, Merge(d, under).value;
    ApplyToLedgerValid(under, l);
    ApplyToLedgerValid(b, l);
    ApplyToLedgerValid(d, m);
    MergePushed(d, under, k.amount);
    ApplyToLedgerAt(under, l, k);
    ApplyToLedgerAt(b, l, k);
    ApplyToLedgerAt(d, m, k);
  }

  lemma ApplyMergedNext(d: Delta, under: Delta, l: Ledger)
    requires l.Valid() && ApplyToLedger(under, l).Some? && Merge(d, under).Some?
    ensures NewNext(Merge(d, under).value, l) == NewNext(d, ApplyToLedger(under, l).value)
  {
    var m, b := ApplyToLedger(under, l).value, Merge(d, under).value;
    ApplyToLedgerValid(under, l);
    forall a
      ensures a in NewNext(b, l) <==> a in NewNext(d, m)
      ensures a in NewNext(b, l) ==> NewNext(b, l)[a] == NewNext(d, m)[a]
    {
      MergePushed(d, under, a);
      assert m.Next(a) == l.Next(a) + |under.Pushed(a)|;
    }
  }

  lemma ApplyMergedOuts(d: Delta, under: Delta, l: Ledger)
    requires l.Valid() && d.height == under.height && Below(under.spends, l)
    requires ApplyToLedger(under, l).Some? && Merge(d, under).Some?
    requires ApplyToLedger(Merge(d, under).value, l).Some? && ApplyToLedger(d, ApplyToLedger(under, l).value).Some?
    ensures ApplyToLedger(Merge(d, under).value, l).value.outs
            == ApplyToLedger(d, ApplyToLedger(under, l).value).value.outs
  {
    var x, y := ApplyToLedger(Merge(d, under).value, l).value, ApplyToLedger(d, ApplyToLedger(under, l).value).value;
    forall k
      ensures k in x.outs <==> k in y.outs
      ensures k in x.outs ==> x.outs[k] == y.outs[k]
    {
      ApplyMergedAt(d, under, l, k);
    }
  }

  lemma ApplyMergedKeyImages(d: Delta, under: Delta, l: Ledger)
    requires ApplyToLedger(under, l).Some? && Merge(d, under).Some?
    ensures var x, y := ApplyToLedger(Merge(d, under).value, l), ApplyToLedger(d, ApplyToLedger(under, l).value);
            (x.Some? <==> y.Some?) && (x.Some? ==> x.value.keyImages == y.value.keyImages)
  {
    var b := Merge(d, under).value;
    assert b.keyImages.Keys == under.keyImages.Keys + d.keyImages.Keys;
    assert l.keyImages + (under.keyImages + d.keyImages) == (l.keyImages + under.keyImages) + d.keyImages;
  }

  /** Applying a merged overlay is applying the lower one, then the upper one. */
  lemma ApplyMerged(d: Delta, under: Delta, l: Ledger)
    requires l.Valid() && d.height == under.height && Below(under.spends, l)
    requires ApplyToLedger(under, l).Some? && Merge(d, under).Some?
    ensures ApplyToLedger(Merge(d, under).value, l) == ApplyToLedger(d, ApplyToLedger(under, l).value)
  {
    ApplyMergedKeyImages(d, under, l);
    if ApplyToLedger(Merge(d, under).value, l).Some? {
      ApplyMergedOuts(d, under, l);
      ApplyMergedNext(d, under, l);
    }
  }
}
