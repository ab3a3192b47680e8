/**
 The functions of aio/lua_aio.c that act on a shared control block, as written, and the link
 to the state machine: left undisturbed, its steps do exactly what these functions do.
 */
module AioOps {
  import opened AioProtocol
  import opened AioProof
  import opened AioBlock

  /** What the Lua caller is told. */
  datatype Answer = Refused | Failed | Succeeded

  // --- the functions ---

  /** A shared block with its reference count, and what the kernel holds of it. */
  class Shared {
    const cb: Rcaiocb
    var refs: nat
    var request: Kernel
    var freed: bool
    ghost var owners: multiset<nat>

    constructor (cb: Rcaiocb, ghost creator: nat)
      ensures this.cb == cb && refs == 1 && owners == multiset{creator} && request == NoRequest && !freed
    {
      this.cb, refs, request, freed, owners := cb, 1, NoRequest, false, multiset{creator};
    }

    /** `aio_read` and the other submissions; a failed one leaves nothing with the kernel. */
    method Submit(accepted: bool)
      requires request == NoRequest
      modifies this`request
      ensures request == if accepted then InProgress else NoRequest
    {
      if accepted {
        request := InProgress;
      }
    }

    /** The kernel finishes the request. */
    method Complete()
      requires request == InProgress
      modifies this`request
      ensures request == Done
    {
      request := Done;
    }

    /** `l_aiocb_retain` */
    method Retain(ghost thread: nat)
      modifies this`refs, this`owners
      ensures refs == old(refs) + 1 && owners == old(owners) + multiset{thread}
    {
      refs, owners := refs + 1, owners + multiset{thread};
    }

    /** `l_aio_read` */
    method Read(accepted: bool) returns (r: Answer)
      requires cb.state in {Uninit, Init} ==> request == NoRequest
      modifies this`request, cb`state
      ensures old(cb.state) !in {Uninit, Init} ==> r == Refused && cb.state == old(cb.state) && request == old(request)
      ensures old(cb.state) in {Uninit, Init} && accepted ==>
                r == Succeeded && cb.state == Pending && request == InProgress
      ensures old(cb.state) in {Uninit, Init} && !accepted ==>
                r == Failed && cb.state == old(cb.state) && request == NoRequest
    {
      var begun, state := cb.TryBeginRead();
      if !begun {
        return Refused;
      }
      Submit(accepted);
      if !accepted {
        cb.Rollback(state);
        return Failed;
      }
      r := Succeeded;
    }

    /** `l_aio_write`, `l_aio_mlock` and `l_aio_fsync` */
    method Write(accepted: bool) returns (r: Answer)
      requires cb.state == Init ==> request == NoRequest
      modifies this`request, cb`state
      ensures old(cb.state) != Init ==> r == Refused && cb.state == old(cb.state) && request == old(request)
      ensures old(cb.state) == Init && accepted ==> r == Succeeded && cb.state == Pending && request == InProgress
      ensures old(cb.state) == Init && !accepted ==> r == Failed && cb.state == Init && request == NoRequest
    {
      var begun, state := cb.TryBeginWrite();
      if !begun {
        return Refused;
      }
      Submit(accepted);
      if !accepted {
        cb.Rollback(state);
        return Failed;
      }
      r := Succeeded;
    }

    /** `l_aio_return`, begun on a completed request. */
    method Return(ok: bool) returns (r: Answer)
      requires cb.state == Pending ==> request == Done
      modifies this`request, cb`state, cb`saved
      ensures old(cb.state) != Pending ==>
                r == Refused && cb.state == old(cb.state) && cb.saved == old(cb.saved) && request == old(request)
      ensures old(cb.state) == Pending && ok ==>
                r == Succeeded && cb.state == Init && cb.saved == Init && request == NoRequest
      ensures old(cb.state) == Pending && !ok ==>
                r == Failed && cb.state == old(cb.saved) && cb.saved == old(cb.saved) && request == NoRequest
    {
      var begun := cb.TryBeginReturn();
      if !begun {
        return Refused;
      }
      request := NoRequest; // aio_return
      if !ok {
        cb.Rollback(cb.saved);
        return Failed;
      }
      cb.Commit();
      r := Succeeded;
    }

    /** `l_aio_waitcomplete`, once the kernel yielded this block. */
    method WaitComplete(ok: bool, ghost thread: nat) returns (r: Answer)
      requires request == Done && cb.state == Pending
      modifies this, cb`state, cb`saved
      ensures refs == old(refs) + 1 && owners == old(owners) + multiset{thread}
      ensures request == NoRequest && freed == old(freed)
      ensures ok ==> r == Succeeded && cb.state == Init && cb.saved == Init
      ensures !ok ==> r == Failed && cb.state == old(cb.saved) && cb.saved == old(cb.saved)
    {
      request := NoRequest; // reaped by aio_waitcomplete
      refs, owners := refs + 1, owners + multiset{thread};
      if !ok {
        cb.Rollback(cb.saved);
        return Failed;
      }
      cb.Commit();
      r := Succeeded;
    }

    /** Before memory is freed: cancel or wait, then reap. */
    method EndRequest()
      requires cb.state == Pending <==> request != NoRequest
      modifies this`request
      ensures request == NoRequest
    {
      if cb.state == Pending {
        request := Done; // aio_cancel, or aio_suspend until it is over
        request := NoRequest; // aio_return
      }
    }

    /** `l_aiocb_free`: all memory goes with the last reference, and the kernel is done with it by then. */
    method Free(heap: Heap, ghost thread: nat)
      requires refs > 0 && (refs == 1 ==> cb.state != Returning && (cb.state == Pending <==> request != NoRequest))
      requires heap.Valid() && cb.Separate() && cb.Owned() <= heap.live
      modifies this, heap
      ensures refs == old(refs) - 1 && owners == old(owners) - multiset{thread}
      ensures old(refs) > 1 ==> request == old(request) && freed == old(freed)
      ensures old(refs) == 1 ==> request == NoRequest && freed
      ensures heap.Valid() && heap.live == if old(refs) == 1 then old(heap.live) - cb.Owned() else old(heap.live)
    {
      hide Rcaiocb.Separate, Rcaiocb.Owned, Bases;
      var last := refs == 1;
      refs, owners := refs - 1, owners - multiset{thread};
      if !last {
        return;
      }
      EndRequest();
      freed := true;
      cb.Destroy(heap);
    }
  }

  /** What one thread may do with a block, and the kernel with its request. */
  datatype Use = ReadInto(accepted: bool) | WriteOut(accepted: bool) | Completes | Returns(ok: bool) | Waits(ok: bool)
               | Retains | Drops

  /** A block between two operations of a single thread. */
  ghost predicate AtRest(block: Shared, heap: Heap, before: set<nat>)
    reads block, block.cb, block.cb.iov, heap
  {
    && heap.Valid() && block.cb.Separate() && block.refs > 0
    && heap.live == before + block.cb.Owned() && block.cb.Owned() !! before
    && block.cb.saved in {Uninit, Init} && block.cb.state != Returning
    && (block.cb.state == Pending <==> block.request != NoRequest)
  }

  method Submits(block: Shared, heap: Heap, read: bool, accepted: bool, ghost before: set<nat>)
    requires AtRest(block, heap, before)
    modifies block, block.cb`state, block.cb`saved
    ensures AtRest(block, heap, before) && block.cb.iov == old(block.cb.iov)
  {
    hide Bases, Distinct;
    if read {
      var _ := block.Read(accepted);
    } else {
      var _ := block.Write(accepted);
    }
  }

  method Reaps(block: Shared, heap: Heap, waiting: bool, ok: bool, ghost before: set<nat>)
    requires block.request == Done
    requires AtRest(block, heap, before)
    modifies block, block.cb`state, block.cb`saved
    ensures AtRest(block, heap, before) && block.cb.iov == old(block.cb.iov)
  {
    hide Bases, Distinct;
    if waiting {
      var _ := block.WaitComplete(ok, 0);
    } else {
      var _ := block.Return(ok);
    }
  }

  method Drops(block: Shared, heap: Heap, ghost before: set<nat>)
    requires block.refs > 1
    requires AtRest(block, heap, before)
    modifies block, block.cb`state, block.cb`saved, heap
    ensures AtRest(block, heap, before) && block.cb.iov == old(block.cb.iov)
  {
    hide Bases, Distinct;
    block.Free(heap, 0);
  }

  /** One use; what its caller is not allowed to do at this point does not happen. */
  method UseOnce(block: Shared, heap: Heap, use: Use, ghost before: set<nat>)
    requires AtRest(block, heap, before)
    modifies block, block.cb`state, block.cb`saved, heap
    ensures AtRest(block, heap, before) && block.cb.iov == old(block.cb.iov)
  {
    hide Bases, Distinct, Rcaiocb.Separate, Rcaiocb.Owned;
    match use {
      case ReadInto(accepted) =>
        Submits(block, heap, true, accepted, before);
      case WriteOut(accepted) =>
        Submits(block, heap, false, accepted, before);
      case Completes =>
        if block.request == InProgress {
          block.Complete();
        }
      case Returns(ok) =>
        if block.request == Done {
          Reaps(block, heap, false, ok, before);
        }
      case Waits(ok) =>
        if block.request == Done {
          Reaps(block, heap, true, ok, before);
        }
      case Retains =>
        block.Retain(0);
      case Drops =>
        if block.refs > 1 {
          Drops(block, heap, before);
        }
    }
  }

  /**
   The whole life of a block: built, used in any way, and finalised as often as it was retained.
   All that was allocated for it is freed, and nothing else.
   */
  method Lifetime(heap: Heap, arg: BufferArg, uses: seq<Use>) returns (built: bool)
    requires heap.Valid()
    modifies heap
    ensures heap.Valid() && heap.live == old(heap.live)
  {
    ghost var before := heap.live;
    var cb := Build(heap, arg);
    if cb == null {
      return false;
    }
    var block := new Shared(cb, 0);
    hide Bases, Distinct, Rcaiocb.Separate, Rcaiocb.Owned, Heap.Valid;
    for i := 0 to |uses|
      invariant AtRest(block, heap, before) && fresh(block) && fresh(block.cb) && fresh(block.cb.iov)
    {
      UseOnce(block, heap, uses[i], before);
    }
    while block.refs > 1
      invariant AtRest(block, heap, before) && fresh(block) && fresh(block.cb) && fresh(block.cb.iov)
      decreases block.refs
    {
      block.Free(heap, 0);
    }
    block.Free(heap, 0);
    built := true;
  }

  /** What these functions need of a block is what it looks like in every run. */
  lemma CallsAllowed(run: seq<State>, i: nat, t: nat, b: nat)
    requires Run(run) && i < |run| && t < |run[i].threads| && Ready(run[i], t, b)
    ensures var k := run[i].blocks[b];
            && !k.freed && k.refs > 0
            && (k.state in {Uninit, Init} ==> k.kernel == NoRequest && k.saved == k.state)
            && (k.refs == 1 && !Adopting(run[i], b) ==>
                  k.state != Returning && (k.state == Pending <==> k.kernel != NoRequest))
  {
    RunInv(run, i);
    assert BlockOk(run[i], b);
    if run[i].blocks[b].refs == 1 && !Adopting(run[i], b) {
      LastReference(run[i], t, b);
    }
  }
}
