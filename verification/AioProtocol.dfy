/**
 The life of shared AIO control blocks (aio/lua_aio.c), as a state machine.

 Any number of threads operate on any number of blocks.  Every compare-and-swap, system call,
 atomic load or store and reference-count operation is a step of its own.  `owners` counts,
 for each thread, the live userdata for the block in that thread's Lua state.
 */
module AioProtocol {

  datatype CbState = Uninit | Init | Pending | Returning

  /** What the kernel knows about the block's latest request. */
  datatype Kernel = NoRequest | InProgress | Done

  datatype Block = Block(
    state: CbState,
    saved: CbState, // `aio_state`
    refs: nat,
    owners: multiset<nat>,
    kernel: Kernel,
    freed: bool)

  datatype Pc =
    | Idle
    | RetryInit(b: nat)               // read: the swap from UNINIT failed, about to try from INIT
    | Submit(b: nat, last: CbState)   // about to submit
    | Rollback(b: nat, last: CbState) // about to store `last`
    | Reap(b: nat)                    // about to call aio_return
    | LoadSaved(b: nat)               // failed; about to read `aio_state`
    | CommitSaved(b: nat)             // about to store INIT to `aio_state`
    | CommitState(b: nat)             // about to store INIT to the state
    | Adopt(b: nat, ok: bool)         // aio_waitcomplete yielded the block, about to retain it
    | ReadBuffer(b: nat)              // `buf` or `iov`: saw INIT, about to read the buffer
    | FreeLoad(b: nat)                // released the last reference
    | FreeCancel(b: nat)
    | FreeReap(b: nat)
    | FreeMemory(b: nat)

  datatype State = State(threads: seq<Pc>, blocks: seq<Block>)

  ghost predicate Init0(s: State) {
    (forall t | 0 <= t < |s.threads| :: s.threads[t] == Idle) && s.blocks == []
  }

  function Update(s: State, t: nat, pc: Pc, b: nat, block: Block): State
    requires t < |s.threads| && b < |s.blocks|
  {
    State(s.threads[t := pc], s.blocks[b := block])
  }

  function Move(s: State, t: nat, pc: Pc): State
    requires t < |s.threads|
  {
    s.(threads := s.threads[t := pc])
  }

  /** An idle thread with a userdata for the block. */
  predicate Ready(s: State, t: nat, b: nat)
    requires t < |s.threads|
  {
    s.threads[t] == Idle && b < |s.blocks| && t in s.blocks[b].owners
  }

  // --- operations ---

  /** `shared`: the block is private to its creator until the constructor returns. */
  ghost predicate Create(s: State, s': State, t: nat, st: CbState)
    requires t < |s.threads|
  {
    && s.threads[t] == Idle && st in {Uninit, Init}
    && s' == s.(blocks := s.blocks + [Block(st, st, 1, multiset{t}, NoRequest, false)])
  }

  /** `retain`, called while a reference exists. */
  ghost predicate Retain(s: State, s': State, t: nat, b: nat)
    requires t < |s.threads|
  {
    && s.threads[t] == Idle && b < |s.blocks| && |s.blocks[b].owners| > 0
    && var k := s.blocks[b];
       s' == Update(s, t, Idle, b, k.(refs := k.refs + 1, owners := k.owners + multiset{t}))
  }

  /** `rcaiocb_trybeginread`, first swap. */
  ghost predicate TryRead(s: State, s': State, t: nat, b: nat)
    requires t < |s.threads|
  {
    && Ready(s, t, b)
    && var k := s.blocks[b];
       s' == if k.state == Uninit then Update(s, t, Submit(b, Uninit), b, k.(state := Pending))
             else Move(s, t, RetryInit(b))
  }

  /** `rcaiocb_trybeginwrite`: alone for write, mlock and fsync, or as the second swap of a read. */
  ghost predicate TryWrite(s: State, s': State, t: nat, b: nat)
    requires t < |s.threads|
  {
    && (Ready(s, t, b) || (s.threads[t] == RetryInit(b) && b < |s.blocks|))
    && var k := s.blocks[b];
       s' == if k.state == Init then Update(s, t, Submit(b, Init), b, k.(state := Pending))
             else Move(s, t, Idle)
  }

  ghost predicate DoSubmit(s: State, s': State, t: nat, b: nat, ok: bool)
    requires t < |s.threads|
  {
    && s.threads[t].Submit? && s.threads[t].b == b < |s.blocks|
    && s' == if ok then Update(s, t, Idle, b, s.blocks[b].(kernel := InProgress))
             else Move(s, t, Rollback(b, s.threads[t].last))
  }

  ghost predicate DoRollback(s: State, s': State, t: nat, b: nat)
    requires t < |s.threads|
  {
    && s.threads[t].Rollback? && s.threads[t].b == b < |s.blocks|
    && s' == Update(s, t, Idle, b, s.blocks[b].(state := s.threads[t].last))
  }

  /** `_return` begins, on a completed request that nobody has reaped. */
  ghost predicate TryReturn(s: State, s': State, t: nat, b: nat)
    requires t < |s.threads|
  {
    && Ready(s, t, b)
    && var k := s.blocks[b];
    && (k.state == Pending ==> k.kernel == Done)
    && s' == if k.state == Pending then Update(s, t, Reap(b), b, k.(state := Returning)) else Move(s, t, Idle)
  }

  /** `aio_return` reaps a completed request, whatever its status; otherwise it only fails. */
  ghost predicate DoReap(s: State, s': State, t: nat, b: nat, ok: bool)
    requires t < |s.threads|
  {
    && s.threads[t] == Reap(b) && b < |s.blocks|
    && var k := s.blocks[b];
    && (k.kernel != Done ==> !ok)
    && s' == Update(s, t, if ok then CommitSaved(b) else LoadSaved(b), b,
                    if k.kernel == Done then k.(kernel := NoRequest) else k)
  }

  ghost predicate DoLoadSaved(s: State, s': State, t: nat, b: nat)
    requires t < |s.threads|
  {
    && s.threads[t] == LoadSaved(b) && b < |s.blocks|
    && s' == Move(s, t, Rollback(b, s.blocks[b].saved))
  }

  ghost predicate DoCommitSaved(s: State, s': State, t: nat, b: nat)
    requires t < |s.threads|
  {
    && s.threads[t] == CommitSaved(b) && b < |s.blocks|
    && s' == Update(s, t, CommitState(b), b, s.blocks[b].(saved := Init))
  }

  ghost predicate DoCommitState(s: State, s': State, t: nat, b: nat)
    requires t < |s.threads|
  {
    && s.threads[t] == CommitState(b) && b < |s.blocks|
    && s' == Update(s, t, Idle, b, s.blocks[b].(state := Init))
  }

  /** `aio_waitcomplete` reaps some request, not one a `_return` is at work on; its block has a reference. */
  ghost predicate WaitComplete(s: State, s': State, t: nat, b: nat, ok: bool)
    requires t < |s.threads|
  {
    && s.threads[t] == Idle && b < |s.blocks|
    && var k := s.blocks[b];
    && k.kernel == Done && k.state != Returning && |k.owners| > 0
    && s' == Update(s, t, Adopt(b, ok), b, k.(kernel := NoRequest))
  }

  ghost predicate DoAdopt(s: State, s': State, t: nat, b: nat)
    requires t < |s.threads|
  {
    && s.threads[t].Adopt? && s.threads[t].b == b < |s.blocks|
    && var k := s.blocks[b];
       s' == Update(s, t, if s.threads[t].ok then CommitSaved(b) else LoadSaved(b), b,
                    k.(refs := k.refs + 1, owners := k.owners + multiset{t}))
  }

  /** `buf` or `iov`: the state check. */
  ghost predicate CheckBuffer(s: State, s': State, t: nat, b: nat)
    requires t < |s.threads|
  {
    Ready(s, t, b) && s' == Move(s, t, if s.blocks[b].state == Init then ReadBuffer(b) else Idle)
  }

  ghost predicate DoReadBuffer(s: State, s': State, t: nat, b: nat)
    requires t < |s.threads|
  {
    s.threads[t] == ReadBuffer(b) && b < |s.blocks| && s' == Move(s, t, Idle)
  }

  /** Some thread got the block from `aio_waitcomplete` and has not retained it yet. */
  ghost predicate Adopting(s: State, b: nat) {
    exists u | 0 <= u < |s.threads| :: s.threads[u].Adopt? && s.threads[u].b == b
  }

  /** Finalising a userdata.  A block that `aio_waitcomplete` just yielded keeps a reference. */
  ghost predicate Release(s: State, s': State, t: nat, b: nat)
    requires t < |s.threads|
  {
    && Ready(s, t, b)
    && var k := s.blocks[b];
    && (k.refs == 1 ==> !Adopting(s, b))
    && k.refs > 0
    && s' == Update(s, t, if k.refs == 1 then FreeLoad(b) else Idle, b,
                    k.(refs := k.refs - 1, owners := k.owners - multiset{t}))
  }

  ghost predicate DoFreeLoad(s: State, s': State, t: nat, b: nat)
    requires t < |s.threads|
  {
    && s.threads[t] == FreeLoad(b) && b < |s.blocks|
    && s' == Move(s, t, if s.blocks[b].state == Pending then FreeCancel(b) else FreeMemory(b))
  }

  /** `aio_cancel`, and `aio_suspend` when it could not cancel: the request is over. */
  ghost predicate DoFreeCancel(s: State, s': State, t: nat, b: nat)
    requires t < |s.threads|
  {
    && s.threads[t] == FreeCancel(b) && b < |s.blocks|
    && var k := s.blocks[b];
       s' == Update(s, t, FreeReap(b), b, k.(kernel := if k.kernel == InProgress then Done else k.kernel))
  }

  ghost predicate DoFreeReap(s: State, s': State, t: nat, b: nat)
    requires t < |s.threads|
  {
    && s.threads[t] == FreeReap(b) && b < |s.blocks|
    && var k := s.blocks[b];
       s' == Update(s, t, FreeMemory(b), b, k.(kernel := if k.kernel == Done then NoRequest else k.kernel))
  }

  ghost predicate DoFreeMemory(s: State, s': State, t: nat, b: nat)
    requires t < |s.threads|
  {
    && s.threads[t] == FreeMemory(b) && b < |s.blocks|
    && s' == Update(s, t, Idle, b, s.blocks[b].(freed := true))
  }

  /** The kernel finishes a request. */
  ghost predicate Complete(s: State, s': State, b: nat) {
    && b < |s.blocks| && s.blocks[b].kernel == InProgress
    && s' == s.(blocks := s.blocks[b := s.blocks[b].(kernel := Done)])
  }

  ghost predicate ThreadStep(s: State, s': State, t: nat, b: nat)
    requires t < |s.threads|
  {
    || Retain(s, s', t, b) || TryRead(s, s', t, b) || TryWrite(s, s', t, b)
    || (exists ok :: DoSubmit(s, s', t, b, ok)) || DoRollback(s, s', t, b)
    || TryReturn(s, s', t, b) || (exists ok :: DoReap(s, s', t, b, ok)) || DoLoadSaved(s, s', t, b)
    || DoCommitSaved(s, s', t, b) || DoCommitState(s, s', t, b)
    || (exists ok :: WaitComplete(s, s', t, b, ok)) || DoAdopt(s, s', t, b)
    || CheckBuffer(s, s', t, b) || DoReadBuffer(s, s', t, b)
    || Release(s, s', t, b) || DoFreeLoad(s, s', t, b) || DoFreeCancel(s, s', t, b)
    || DoFreeReap(s, s', t, b) || DoFreeMemory(s, s', t, b)
  }

  ghost predicate Next(s: State, s': State) {
    || (exists b: nat :: Complete(s, s', b))
    || (exists t: nat, b: nat | t < |s.threads| :: ThreadStep(s, s', t, b))
    || (exists t: nat, st | t < |s.threads| :: Create(s, s', t, st))
  }

  ghost predicate Run(run: seq<State>) {
    && |run| > 0 && Init0(run[0])
    && forall i | 0 <= i < |run| - 1 :: Next(run[i], run[i + 1])
  }

  // --- the invariant ---

  predicate Touches(pc: Pc, b: nat) {
    !pc.Idle? && pc.b == b
  }

  /** Between a successful swap (or a reaped completion) and the store that ends it. */
  predicate Busy(pc: Pc, b: nat) {
    && Touches(pc, b)
    && (pc.Submit? || pc.Rollback? || pc.Reap? || pc.LoadSaved? || pc.CommitSaved? || pc.CommitState? || pc.Adopt?)
  }

  predicate Freeing(pc: Pc, b: nat) {
    Touches(pc, b) && (pc.FreeLoad? || pc.FreeCancel? || pc.FreeReap? || pc.FreeMemory?)
  }

  ghost predicate SomeBusy(s: State, b: nat) {
    exists t | 0 <= t < |s.threads| :: Busy(s.threads[t], b)
  }

  ghost predicate SomeFreeing(s: State, b: nat) {
    exists t | 0 <= t < |s.threads| :: Freeing(s.threads[t], b)
  }

  /** What a block looks like between steps. */
  ghost predicate BlockOk(s: State, b: nat)
    requires b < |s.blocks|
  {
    var k := s.blocks[b];
    && k.refs == |k.owners|
    && k.saved in {Uninit, Init}
    && (k.state in {Uninit, Init} ==> k.state == k.saved && k.kernel == NoRequest)
    && (k.state == Pending && k.kernel == NoRequest && k.refs > 0 ==> SomeBusy(s, b))
    && (k.state == Returning ==> SomeBusy(s, b))
    && (k.refs == 0 && !k.freed ==> SomeFreeing(s, b))
    && (k.freed ==> k.refs == 0 && k.kernel == NoRequest)
  }

  /** What a thread in the middle of an operation knows about its block. */
  ghost predicate ThreadOk(s: State, t: nat)
    requires t < |s.threads|
  {
    var pc := s.threads[t];
    !pc.Idle? ==>
      && pc.b < |s.blocks|
      && var k := s.blocks[pc.b];
      && !k.freed
      && (Freeing(pc, pc.b) ==> k.refs == 0)
      && (!Freeing(pc, pc.b) && !pc.Adopt? ==> t in k.owners)
      && match pc
         case Idle | RetryInit(_) | ReadBuffer(_) => true
         case FreeLoad(_) => k.state != Returning && (k.state == Pending ==> k.kernel != NoRequest)
         case Submit(_, last) => k.state == Pending && k.kernel == NoRequest && last == k.saved
         case Rollback(_, last) => k.state in {Pending, Returning} && k.kernel == NoRequest && last == k.saved
         case Reap(_) => k.state == Returning && k.kernel == Done
         case LoadSaved(_) | CommitSaved(_) => k.state in {Pending, Returning} && k.kernel == NoRequest
         case CommitState(_) => k.state in {Pending, Returning} && k.kernel == NoRequest && k.saved == Init
         case Adopt(_, _) => k.state == Pending && k.kernel == NoRequest && k.refs > 0
         case FreeCancel(_) => k.state == Pending && k.kernel != NoRequest
         case FreeReap(_) => k.state == Pending && k.kernel == Done
         case FreeMemory(_) => k.kernel == NoRequest
  }

  /** Only one thread at a time is in the middle of changing a block, or freeing it. */
  ghost predicate Exclusive(s: State) {
    forall t, u, b | 0 <= t < |s.threads| && 0 <= u < |s.threads| && t != u ::
      && !(Busy(s.threads[t], b) && Busy(s.threads[u], b))
      && !(Freeing(s.threads[t], b) && Touches(s.threads[u], b))
  }

  ghost predicate Inv(s: State) {
    && (forall b | 0 <= b < |s.blocks| :: BlockOk(s, b))
    && (forall t | 0 <= t < |s.threads| :: ThreadOk(s, t))
    && Exclusive(s)
  }
}
