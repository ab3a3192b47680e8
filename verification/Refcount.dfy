/**
 Atomic reference counts (libpthread/refcount.h) and the `retain` and `__gc` functions of the
 pthread objects built on them (libpthread/lua_pthread.c).
 */
module Refcount {

  const WORD: nat := 0x1_0000_0000_0000_0000 // values of an unsigned long

  /** Atomic addition and subtraction of one, wrapping. */
  function Inc(n: int): int {
    if n == WORD - 1 then 0 else n + 1
  }

  function Dec(n: int): int {
    if n == 0 then WORD - 1 else n - 1
  }

  lemma WrapsAsModulo(n: nat)
    ensures Inc(n % WORD) == (n + 1) % WORD
    ensures n > 0 ==> Dec(n % WORD) == (n - 1) % WORD
    ensures n < WORD ==> n % WORD == n
  {
    var q, r := n / WORD, n % WORD;
    assert n == q * WORD + r;
  }

  // --- every interleaving of any number of threads ---

  /** An atomic operation on the count, by the thread whose Lua state makes or finalises a userdata. */
  datatype Op = Retain(thread: nat) | Finalise(thread: nat)

  /** `owners` counts each thread's live userdata for the object. */
  datatype Object = Object(refs: int, owners: multiset<nat>, destroyed: bool)

  /** The caller's side: a retain happens while a reference is live, and each userdata is finalised once. */
  predicate Legal(o: Object, op: Op) {
    match op
    case Retain(_) => |o.owners| > 0
    case Finalise(t) => t in o.owners
  }

  /** What `__gc` and `retain` do to the object. */
  function Apply(o: Object, op: Op): Object {
    match op
    case Retain(t) => o.(refs := Inc(o.refs), owners := o.owners + multiset{t})
    case Finalise(t) =>
      Object(Dec(o.refs), o.owners - multiset{t}, o.destroyed || o.refs == 1)
  }

  function After(creator: nat, ops: seq<Op>): Object {
    if ops == [] then Object(1, multiset{creator}, false)
    else Apply(After(creator, ops[..|ops| - 1]), ops[|ops| - 1])
  }

  predicate History(creator: nat, ops: seq<Op>) {
    forall i | 0 <= i < |ops| :: Legal(After(creator, ops[..i]), ops[i])
  }

  /** Fewer userdata at any time than an unsigned long can count. */
  predicate Bounded(creator: nat, ops: seq<Op>) {
    forall i | 0 <= i <= |ops| :: |After(creator, ops[..i]).owners| < WORD
  }

  lemma HistoryPrefix(creator: nat, ops: seq<Op>, i: nat)
    requires i <= |ops|
    ensures History(creator, ops) ==> History(creator, ops[..i])
    ensures Bounded(creator, ops) ==> Bounded(creator, ops[..i])
  {
    assert forall j | 0 <= j <= i :: ops[..i][..j] == ops[..j];
  }

  /** One operation moves the number of live userdata by one. */
  lemma Counted(o: Object, op: Op)
    requires Legal(o, op)
    ensures op.Retain? ==> |Apply(o, op).owners| == |o.owners| + 1
    ensures op.Finalise? ==> |o.owners| > 0 && |Apply(o, op).owners| == |o.owners| - 1
    ensures |Apply(o, op).owners| == 0 <==> Apply(o, op).owners == multiset{}
  {
    if op.Finalise? {
      assert o.owners == Apply(o, op).owners + multiset{op.thread};
    }
  }

  /** The count is the number of live userdata, modulo the word. */
  lemma {:induction false} CountIsOwners(creator: nat, ops: seq<Op>)
    requires History(creator, ops)
    ensures After(creator, ops).refs == |After(creator, ops).owners| % 0x1_0000_0000_0000_0000
  {
    if ops != [] {
      var n := |ops| - 1;
      HistoryPrefix(creator, ops, n);
      CountIsOwners(creator, ops[..n]);
      var o := After(creator, ops[..n]);
      assert Legal(o, ops[n]);
      Counted(o, ops[n]);
      WrapsAsModulo(|o.owners|);
    } else {
      WrapsAsModulo(1);
    }
  }

  /** The object is destroyed exactly when its last userdata has been finalised. */
  lemma {:induction false} DestroyedWhenUnowned(creator: nat, ops: seq<Op>)
    requires History(creator, ops) && Bounded(creator, ops)
    ensures After(creator, ops).destroyed <==> After(creator, ops).owners == multiset{}
  {
    if ops != [] {
      var n := |ops| - 1;
      HistoryPrefix(creator, ops, n);
      DestroyedWhenUnowned(creator, ops[..n]);
      CountIsOwners(creator, ops[..n]);
      var o := After(creator, ops[..n]);
      assert Legal(o, ops[n]) && ops[..|ops|] == ops;
      assert |o.owners| < WORD;
      Counted(o, ops[n]);
      WrapsAsModulo(|o.owners|);
    }
  }

  /** Release i is the one `refcount_release` answers true for. */
  predicate LastAt(creator: nat, ops: seq<Op>, i: nat)
    requires i < |ops|
  {
    ops[i].Finalise? && After(creator, ops[..i]).refs == 1
  }

  lemma NobodyAfterLast(creator: nat, ops: seq<Op>, i: nat)
    requires History(creator, ops) && Bounded(creator, ops) && i < |ops| && LastAt(creator, ops, i)
    ensures After(creator, ops[..i + 1]).owners == multiset{}
  {
    HistoryPrefix(creator, ops, i + 1);
    assert ops[..i + 1][..i] == ops[..i];
    DestroyedWhenUnowned(creator, ops[..i + 1]);
    hide History, Bounded;
  }

  /** It is the last operation on the object, whatever the interleaving ... */
  lemma NothingAfterLast(creator: nat, ops: seq<Op>, i: nat)
    requires History(creator, ops) && Bounded(creator, ops) && i < |ops| && LastAt(creator, ops, i)
    ensures i == |ops| - 1 && After(creator, ops).owners == multiset{}
  {
    assert i + 1 < |ops| ==> Legal(After(creator, ops[..i + 1]), ops[i + 1]);
    assert i + 1 == |ops| ==> ops[..i + 1] == ops;
    hide History, Bounded, LastAt, After;
    NobodyAfterLast(creator, ops, i);
  }

  /** ... and once every userdata has been finalised there has been exactly one. */
  lemma ExactlyOneLast(creator: nat, ops: seq<Op>)
    requires History(creator, ops) && Bounded(creator, ops) && After(creator, ops).owners == multiset{}
    ensures |ops| > 0 && LastAt(creator, ops, |ops| - 1)
    ensures forall i | 0 <= i < |ops| && LastAt(creator, ops, i) :: i == |ops| - 1
  {
    assert creator in After(creator, []).owners;
    var n := |ops| - 1;
    HistoryPrefix(creator, ops, n);
    CountIsOwners(creator, ops[..n]);
    DestroyedWhenUnowned(creator, ops[..n]);
    DestroyedWhenUnowned(creator, ops);
    assert Legal(After(creator, ops[..n]), ops[n]);
    forall i | 0 <= i < |ops| && LastAt(creator, ops, i) ensures i == n {
      NothingAfterLast(creator, ops, i);
    }
  }

  /** Without the bound the count wraps: a release is taken for the last whenever the owners are 1 modulo the word. */
  lemma LastModuloWord(creator: nat, ops: seq<Op>, i: nat)
    requires History(creator, ops) && i < |ops| && ops[i].Finalise?
    ensures LastAt(creator, ops, i) <==> |After(creator, ops[..i]).owners| % 0x1_0000_0000_0000_0000 == 1
  {
    HistoryPrefix(creator, ops, i);
    CountIsOwners(creator, ops[..i]);
  }

  /** Release i is told it was the last although other userdata are left. */
  predicate FalseLast(creator: nat, ops: seq<Op>, i: nat)
    requires i < |ops|
  {
    && ops[i].Finalise? && |After(creator, ops[..i]).owners| > 1
    && |After(creator, ops[..i]).owners| % 0x1_0000_0000_0000_0000 == 1
  }

  /** At some point the object has been destroyed under live userdata. */
  predicate DestroyedEarly(creator: nat, ops: seq<Op>) {
    exists j | 0 <= j <= |ops| :: EarlyAt(creator, ops, j)
  }

  predicate EarlyAt(creator: nat, ops: seq<Op>, j: nat)
    requires j <= |ops|
  {
    After(creator, ops[..j]).destroyed && After(creator, ops[..j]).owners != multiset{}
  }

  /** Destruction is the doing of some release that was told it was the last. */
  lemma {:induction false} DestroyedByLast(creator: nat, ops: seq<Op>) returns (i: nat)
    requires After(creator, ops).destroyed
    ensures i < |ops| && LastAt(creator, ops, i)
    decreases |ops|
  {
    i := |ops| - 1;
    if After(creator, ops[..i]).destroyed {
      var j := DestroyedByLast(creator, ops[..i]);
      assert ops[..i][..j] == ops[..j];
      i := j;
    }
  }

  /**
   With no bound at all: in a legal history the object is destroyed under live userdata exactly when
   some finalisation happens while the live userdata are more than one and 1 modulo the word.
   */
  lemma WrapIsTheOnlyDanger(creator: nat, ops: seq<Op>)
    requires History(creator, ops)
    ensures DestroyedEarly(creator, ops) <==> exists i | 0 <= i < |ops| :: FalseLast(creator, ops, i)
  {
    hide History, FalseLast, EarlyAt;
    if i: nat :| i < |ops| && FalseLast(creator, ops, i) {
      FalseLastLeavesOwners(creator, ops, i);
    } else if j: nat :| j <= |ops| && EarlyAt(creator, ops, j) {
      var i := EarlyByFalseLast(creator, ops, j);
    }
  }

  lemma EarlyByFalseLast(creator: nat, ops: seq<Op>, j: nat) returns (i: nat)
    requires History(creator, ops) && j <= |ops| && EarlyAt(creator, ops, j)
    ensures i < |ops| && FalseLast(creator, ops, i)
  {
    i := DestroyedByLast(creator, ops[..j]);
    assert ops[..j][..i] == ops[..i];
    hide History, After;
    LastModuloWord(creator, ops, i);
    if |After(creator, ops[..i]).owners| <= 1 {
      TrueLastEnds(creator, ops, i, j);
    }
  }

  lemma FalseLastLeavesOwners(creator: nat, ops: seq<Op>, i: nat)
    requires History(creator, ops) && i < |ops| && FalseLast(creator, ops, i)
    ensures EarlyAt(creator, ops, i + 1)
  {
    LastModuloWord(creator, ops, i);
    assert ops[..i + 1][..i] == ops[..i];
    assert Legal(After(creator, ops[..i]), ops[i]);
    Counted(After(creator, ops[..i]), ops[i]);
  }

  /** A finalisation of the only userdata is the end of a legal history. */
  lemma TrueLastEnds(creator: nat, ops: seq<Op>, i: nat, j: nat)
    requires History(creator, ops) && i < j <= |ops| && ops[i].Finalise?
    requires |After(creator, ops[..i]).owners| == 1
    ensures j == i + 1 && After(creator, ops[..j]).owners == multiset{}
  {
    assert ops[..i + 1][..i] == ops[..i];
    assert Legal(After(creator, ops[..i]), ops[i]);
    assert i + 1 < |ops| ==> Legal(After(creator, ops[..i + 1]), ops[i + 1]);
    Counted(After(creator, ops[..i]), ops[i]);
  }

  /** Such a history exists: as many retains as an unsigned long has values, then one finalisation. */
  lemma WrapHappens(creator: nat) returns (ops: seq<Op>)
    ensures History(creator, ops) && DestroyedEarly(creator, ops)
  {
    ops := seq(WORD, _ => Op.Retain(creator)) + [Op.Finalise(creator)];
    hide After, History, FalseLast, DestroyedEarly;
    RetainsLegal(creator, ops);
    AllButOne(creator, ops);
    WrapIsTheOnlyDanger(creator, ops);
  }

  /** At the finalisation the owners are one more than an unsigned long has values. */
  lemma AllButOne(creator: nat, ops: seq<Op>)
    requires ops == seq(WORD, _ => Op.Retain(creator)) + [Op.Finalise(creator)]
    ensures FalseLast(creator, ops, WORD)
  {
    hide After;
    RetainsSoFar(creator, ops, WORD);
  }

  lemma RetainsLegal(creator: nat, ops: seq<Op>)
    requires ops == seq(WORD, _ => Op.Retain(creator)) + [Op.Finalise(creator)]
    ensures History(creator, ops)
  {
    hide After;
    forall i | 0 <= i < |ops| ensures Legal(After(creator, ops[..i]), ops[i]) {
      RetainsSoFar(creator, ops, i);
    }
  }

  lemma RetainsSoFar(creator: nat, ops: seq<Op>, i: nat)
    requires ops == seq(WORD, _ => Op.Retain(creator)) + [Op.Finalise(creator)] && i <= WORD
    ensures After(creator, ops[..i]).owners[creator] == i + 1 && |After(creator, ops[..i]).owners| == i + 1
  {
    Retained(creator, i);
    assert ops[..i] == seq(i, _ => Op.Retain(creator));
  }

  lemma {:induction false} Retained(creator: nat, n: nat)
    ensures After(creator, seq(n, _ => Op.Retain(creator))).owners[creator] == n + 1
    ensures |After(creator, seq(n, _ => Op.Retain(creator))).owners| == n + 1
  {
    var ops := seq(n, _ => Op.Retain(creator));
    if n > 0 {
      Retained(creator, n - 1);
      assert ops[..n - 1] == seq(n - 1, _ => Op.Retain(creator));
    }
  }

  /** A counted object; `destroyed` once its `__gc` has torn it down and freed it. */
  class RcObject {
    var refs: int
    var destroyed: bool
    ghost var owners: multiset<nat>

    ghost function View(): Object
      reads this
    {
      Object(refs, owners, destroyed)
    }

    /** `refcount_init(&refs, 1)` and the first userdata. */
    constructor (ghost creator: nat)
      ensures View() == After(creator, []) && refs == 1 && !destroyed && owners == multiset{creator}
    {
      refs, destroyed, owners := 1, false, multiset{creator};
    }

    /** `refcount_retain` and a new userdata. */
    method Retain(ghost thread: nat)
      requires !destroyed
      modifies this
      ensures View() == Apply(old(View()), Op.Retain(thread))
      ensures refs == (if old(refs) == 0xFFFF_FFFF_FFFF_FFFF then 0 else old(refs) + 1) && !destroyed
      ensures owners == old(owners) + multiset{thread}
    {
      refs := Inc(refs);
      owners := owners + multiset{thread};
    }

    /** `refcount_release`: true for the decrement from 1. */
    method Release() returns (last: bool)
      modifies this`refs
      ensures refs == (if old(refs) == 0 then 0xFFFF_FFFF_FFFF_FFFF else old(refs) - 1) && last == (old(refs) == 1)
    {
      var before := refs;
      refs := Dec(refs);
      last := before == 1;
    }

    /** `__gc` of one userdata. */
    method Finalise(ghost thread: nat)
      requires !destroyed
      modifies this
      ensures View() == Apply(old(View()), Op.Finalise(thread))
      ensures refs == if old(refs) == 0 then 0xFFFF_FFFF_FFFF_FFFF else old(refs) - 1
      ensures destroyed <==> old(refs) == 1
      ensures owners == old(owners) - multiset{thread}
    {
      owners := owners - multiset{thread};
      var last := Release();
      if last {
        destroyed := true;
      }
    }
  }

  /** One operation on the object. */
  method Perform(o: RcObject, op: Op)
    requires !o.destroyed
    modifies o
    ensures o.View() == Apply(old(o.View()), op)
  {
    match op {
      case Retain(t) => o.Retain(t);
      case Finalise(t) => o.Finalise(t);
    }
  }

  /** Any legal interleaving, run on the object: nothing ever touches it once it is destroyed. */
  method Replay(creator: nat, ops: seq<Op>) returns (o: RcObject)
    requires History(creator, ops) && Bounded(creator, ops)
    ensures o.View() == After(creator, ops)
    ensures o.destroyed <==> o.owners == multiset{}
  {
    o := new RcObject(creator);
    hide Apply, Bounded;
    for i := 0 to |ops|
      invariant o.View() == After(creator, ops[..i]) && fresh(o)
    {
      assert Legal(After(creator, ops[..i]), ops[i]);
      HistoryPrefix(creator, ops, i);
      DestroyedWhenUnowned(creator, ops[..i]);
      assert ops[..i + 1][..i] == ops[..i];
      Perform(o, ops[i]);
    }
    assert ops[..|ops|] == ops;
    DestroyedWhenUnowned(creator, ops);
  }
}
