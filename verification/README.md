# Verified models of the flualibs protocols, state machines and codecs

This repository binds FreeBSD libraries and system calls to Lua.  Most of it is thin, but several
files hold protocols and codecs of their own.  This project models those in Dafny and proves what
they promise, for every input, every interleaving of any number of threads, and every run.
`dafny verify dfyconfig.toml` checks it.

| Dafny files | modelled code |
|---|---|
| `Lua`, `LuaTables` | the Lua stack and the C API calls used; the table helpers of `utils.h` |
| `DeepCopy`, `Exchange` | `copyn` and `exchange` (`libpthread/lua_pthread.c`) |
| `Rendezvous`, `RendezvousProof`, `RendezvousTheorems`, `RendezvousFlag`, `TimedResults` | any number of threads meeting at one rendezvous |
| `RendezvousProgress`, `RendezvousCourse`, `RendezvousEnds` | which of their calls come to an end |
| `ThreadLife`, `CleanupStack`, `Refcount` | `create`/`join`, cleanup handlers, reference counts |
| `AioProtocol`, `AioProof`, `AioTheorems`, `AioRace`, `AioObligations` | the AIO control-block protocol as a state machine (`aio/lua_aio.c`) |
| `AioBlock`, `AioOps`, `AioPaths` | the same code as methods on a block, its buffers, and the machine's steps put together |
| `Oid`, `SysctlIter` | the sysctl tree iterator (`sys/sysctl/lua_sysctl.c`) |
| `Bits`, `FlagTable`, `KernelFlags`, `ForeachFold` | `%b` flag tables and callback folds (`libifconfig/lua_ifconfig.c`) |
| `SockaddrPack` | packed socket addresses (`netinet/sctp/lua_sctp.c`) |
| `ExtattrList`, `InotifyRead` | walkers over length-prefixed records |
| `Wrappers`, `CTypes` | optional values, C integer types |

## How it is modelled

A `LuaState` is a class with a `seq` of values, addressed by absolute and relative indices, and the
tables it owns.  Code that shuffles the stack is a method that makes the same API calls in the same
order.  A closure value carries its upvalues, so upvalue graphs are acyclic.

The two concurrent protocols are state machines with a program counter per thread.

* Rendezvous steps (`libpthread/lua_pthread.c`): `Lock` 2099, `LockTimeout` 2147-2151, `Register`
  2102-2104, `Sleep` 2105, `FindWaiter` 2117, `TakeCount` 2066-2067, `CopyIn` 2069-2075, `CopyOut`
  2078-2087, `Clear` 2119, `Signal` 2120, `Reacquire` and `ReadCount` 2105-2107, `Timeout` and
  `Withdraw` 2157-2164, `Unlock` 2129, `Return` 2132.  The fields `frame`, `args`, `peer` and `outcome`
  of a call are history that no step reads.  Every thread's Lua state has a globals table of its own.
* AIO steps (`aio/lua_aio.c`): `TryRead` and `TryWrite` 80-95, `DoSubmit` 467-487, `DoRollback` 109,
  `TryReturn` 100, `DoReap` 560, `DoLoadSaved` 563, `DoCommitSaved` and `DoCommitState` 116,
  `WaitComplete` 792, `DoAdopt` 808-809, `CheckBuffer` 411 and 429, `DoReadBuffer` 417 and 435,
  `Release` 329, `DoFreeLoad` 333, `DoFreeCancel` 341-366, `DoFreeReap` 367, `DoFreeMemory` 369-377.
  Memory is sequentially consistent.

### What the environment is assumed to do

* Condition variables: no spurious wakeups, a signal wakes at least one blocked thread, and a
  timeout fires only while the thread is still registered.  POSIX allows both a spurious wakeup and
  a late timeout, and the code does not guard against either; `SpuriousWakeupBreaksPairing` and
  `LateTimeoutBreaksPairing` are runs in which dropping one assumption breaks pairing.
* AIO callers: `_return` begins only on a completed request that nobody reaped; `waitcomplete` does not
  race with a return, and a block it yields keeps a reference until it is retained; `retain` is
  called only while a reference exists; each userdata is finalised once, without a prior `__close`.
  A failed submission leaves nothing with the kernel.  `AioObligations` shows the first two to be exactly what
  is needed (`ReturnNeedsCompletion`, `WaitNeedsReference`, and `LastReleaseNeedsNoAdoption` for the reference
  while a yielded block is not retained yet); `EarlyReturnHappens` is a run that ignores the first.
* A `__gc` that the collector runs on a thread in the middle of an AIO operation counts as that of
  another thread: a step `Release` is only taken by a thread that is between operations.
* sysctl: the kernel's NEXT is the strict lexicographic successor among the leaves.  `iter_noskip` runs the
  same code over the larger set of leaves that includes the skipped ones.
* A `luaL_Buffer` occupies no stack slot.  Tables are plain, without metamethods; `#t` may answer any border.
* `malloc` and `calloc` succeed as long as some given number of allocations is left.
* Callbacks are functions of their arguments and of a `world` they may change; cleanup handlers do not
  touch the cleanup stack.

### Where the code differs from what one might expect

* `copyn` skips every `_ENV` upvalue, but a freshly loaded function has its globals only in upvalue 1.
  A function whose `_ENV` is a later upvalue is copied with a nil environment
  (`DeepCopy.CopyEnvironment` is the exact condition, `LateEnvironmentIsLost` an example).
* The rendezvous slot names the blocked thread except exactly while the mutex holder stands between the
  slot operation and the wait or signal (`SlotIsTheBlockedThread` names the three places).
* A timed call's success flag is inserted one place too low: what Lua gets first is the call's own last argument,
  or its deadline if it has none.  The flag is right exactly when that argument is `true`
  (`RendezvousTheorems.TimedCallHands`); `RendezvousFlag.FlagIsLost` is a run in which it is lost.
* Reading `buf` or `iov` is a state check followed by a separate read.  Another thread can submit in between.
  If userdata are not handed out meanwhile, a thread can come to read a buffer the kernel holds exactly when
  some other thread has a userdata for the block at the time of the check (`AioRace.RaceNeedsAnotherOwner`);
  if they may be, exactly when there is another thread (`AioRace.RaceNeedsAnotherThread`).
* The comment above `enum aiocb_state` gives PENDING to INIT only for failures; a successful
  `waitcomplete` makes that transition too.  A constructor may set INIT on a block nobody else sees
  yet, which the table also does not list.
* A reference count wraps: an object is destroyed under live userdata exactly when one is finalised while
  there are more than one and their number is 1 modulo 2^64 (`Refcount.WrapIsTheOnlyDanger`).
* Cleanup handlers run oldest first.  Arguments after a nil may be lost: all survive exactly when there is none
  (`CleanupStack.AllArgumentsSurvive`).  A handler pushed without a value, or with a nil first, may make
  `lua_pcall` be called with -1 arguments, which Lua does not define (`CleanupStack.NothingToCall`).
* `IFCAPBITS` lists RXCSUM before RXCSUM_IPV6 (and TXCSUM before TXCSUM_IPV6), so decoding what was
  encoded turns RXCSUM_IPV6 into RXCSUM.  `set_capabilities` gives back a set of capabilities exactly when it
  has neither of the two IPV6 ones (`KernelFlags.SurvivingCapabilities`).  `ND6BITS` gives ipv6_only to bits 10
  and 11; it is only encoded, like all tables but `IFCAPBITS`.
* `sa_len` is 8 bits: SCTP addresses with more than 253 data bytes do not survive packing.
* `pushlist` reads the length byte through `char`; where that is signed, one attribute name longer than 127
  bytes makes the walk leave the buffer.

## Model

| member | source | states |
|---|---|---|
| `DeepCopy.CopyN` | libpthread/lua_pthread.c:46-122 | Returns 0 iff every value of the window is copyable; then the source stack is unchanged and exactly the copies are appended. Otherwise returns the least failing index, with the values before it copied and nothing below disturbed. Terminates. |
| `DeepCopy.OutcomeMeans` | libpthread/lua_pthread.c:46-122 | What that says of the values themselves: 0 iff no table, userdata, coroutine or C function is inside any of them, upvalues named `_ENV` aside; a function whose only upvalue is `_ENV` is copied and gets the target's globals; a table in any other upvalue is refused. |
| `DeepCopy.CopyableExactly` | libpthread/lua_pthread.c:53-117 | A value is accepted iff nothing inside it, at any depth and `_ENV` aside, belongs to its state. |
| `DeepCopy.FunctionCopy` | libpthread/lua_pthread.c:78-114 | A copied function has the same code and upvalue names; a first upvalue named `_ENV` is the target's globals, a later one nil, and every other upvalue a copy of the original's. |
| `DeepCopy.CopyOne` | libpthread/lua_pthread.c:53-117 | One value: copied iff it is nil, a boolean, a light userdata, a number, a string, or a Lua function with copyable upvalues. |
| `DeepCopy.CopyClosure` | libpthread/lua_pthread.c:78-114 | Succeeds iff all non-`_ENV` upvalues are copyable, at any depth; then both stacks are as before plus one copy. |
| `DeepCopy.CopyUpvalue` | libpthread/lua_pthread.c:100-110 | One upvalue of the half-built copy: one named `_ENV` stays as it was loaded, anything else becomes a copy, through a recursive call at index -1. |
| `DeepCopy.CopyKeepsShape` | libpthread/lua_pthread.c:46-122 | A copy is structurally equal to its source, environments aside. |
| `DeepCopy.CopyOfCopy` | libpthread/lua_pthread.c:46-122 | Copying a copy onward gives what copying the original would have given. |
| `DeepCopy.CopyIsolated` | libpthread/lua_pthread.c:46-122 | No table but the target's globals, and no userdata, coroutine or C function, can be reached from a copy at any depth. |
| `DeepCopy.CopyEnvironment` | libpthread/lua_pthread.c:97-104 | Every function inside a copy has the target's globals for its `_ENV` iff no function inside the original has `_ENV` as a later upvalue than the first. |
| `DeepCopy.LateEnvironmentIsLost` | libpthread/lua_pthread.c:97-104 | A copyable function whose copy has a nil environment. |
| `Exchange.Exchange` | libpthread/lua_pthread.c:2061-2088 | Either both stacks end with copies of all of the other side's values in order, or both end with a message and -1; which of the two depends only on copyability. |
| `Exchange.ExchangedMeans` | libpthread/lua_pthread.c:2061-2088 | The same value by value: where the copies, the counts, the messages and the -1 end up on both stacks. |
| `RendezvousProof.StepInv` | libpthread/lua_pthread.c:2090-2204 | Every step of every thread keeps the invariant over slot, mutex, stacks and calls. |
| `RendezvousProof.RunInv` | libpthread/lua_pthread.c:2090-2204 | The invariant holds in every reachable state. |
| `RendezvousTheorems.Pairing` | libpthread/lua_pthread.c:2061-2133 | A call that returned normally is matched with exactly one call of another thread; its results are copies of that call's frame from the second value on, or from the fourth if that was a timed call; an untimed call hands exactly these to Lua, and its partner can only end the same way. |
| `RendezvousTheorems.NothingShared` | libpthread/lua_pthread.c:2061-2087 | Nothing that belongs to a Lua state, no table, userdata, coroutine or C function, can be reached at any depth from the results of calls of two different threads. |
| `RendezvousTheorems.AlwaysFramed` | libpthread/lua_pthread.c:2096-2144 | What a call offers is its frame without the rendezvous, or without the rendezvous and the two integers of a deadline. |
| `RendezvousTheorems.TimedCallHands` | libpthread/lua_pthread.c:2193-2203 | A timed call that exchanged normally hands Lua the last value of its own frame and then its results; these start with the success flag iff the frame has arguments and the last one is `true`. |
| `RendezvousFlag.FlagIsLost` | libpthread/lua_pthread.c:2200-2202 | A run in which `timedexchange(0, 0)` meets `exchange(5)` and gets 0, 5 instead of true, 5. |
| `RendezvousTheorems.ErrorSymmetry` | libpthread/lua_pthread.c:2069-2084 | Of two paired calls, both fail with a message if either's arguments hold a non-copyable value, and neither fails otherwise; the slot is already empty when the partner is signalled. |
| `RendezvousTheorems.TimeoutLosesNothing` | libpthread/lua_pthread.c:2157-2164 | A call that timed out was nobody's partner. |
| `RendezvousTheorems.SlotIsTheBlockedThread` | libpthread/lua_pthread.c:2099-2131 | At most one thread is blocked and unsignalled; the slot names exactly the blocked thread iff the mutex holder is not between slot and condition variable. |
| `RendezvousTheorems.ForeignStack` | libpthread/lua_pthread.c:2099-2131 | A step changes another thread's Lua stack only under the mutex, while that thread is the blocked one in the slot, also when a third thread registers before the signalled one runs. |
| `RendezvousTheorems.AccessesDefined` | libpthread/lua_pthread.c:2066-2078 | In every reachable state the exchange finds a waiter other than itself, with a count and that many arguments on its stack. |
| `RendezvousTheorems.SlotAstray` | libpthread/lua_pthread.c:2099-2131 | While the mutex holder is there, the slot names a thread that is not blocked, or misses the one that is. |
| `RendezvousProgress.NoLostWakeup` | libpthread/lua_pthread.c:2099-2132 | In every reachable state some call in progress can go on, except exactly when there is none or the only one is an untimed call waiting alone in the slot. |
| `RendezvousProgress.WhoCanStep` | libpthread/lua_pthread.c:2099-2164 | Exactly which calls can go on in a reachable state: the mutex holder, one that has unlocked, one about to lock or relock a free mutex, a timed one about to lock any mutex, and a timed one waiting while the mutex is free. |
| `RendezvousProgress.HolderSteps` | libpthread/lua_pthread.c:2099-2131 | Whoever holds the mutex can always go on. |
| `RendezvousProgress.CopyEnds` | libpthread/lua_pthread.c:46-122 | Every copy has an outcome, whatever the values. |
| `RendezvousCourse.StepMoves` | libpthread/lua_pthread.c:2090-2204 | Every step begins a call or takes one to the next place of its course, with the mutex, the slot, the partners and everybody else's place as they should be. |
| `RendezvousEnds.FewSteps` | libpthread/lua_pthread.c:2090-2204 | From any reachable state, and as long as no further call begins, at most nine more steps of each thread are possible. |
| `RendezvousEnds.SureCallsEnd` | libpthread/lua_pthread.c:2090-2204 | In whatever order the threads proceed until none can, a timed call, a call that has a partner and a call that is bound to meet one come to their end. |
| `RendezvousEnds.WhoIsLeft` | libpthread/lua_pthread.c:2105-2131 | When no call in progress can go on, all calls are over but possibly one, untimed, unmatched and alone in the slot. |
| `RendezvousEnds.WhoMayEnd` | libpthread/lua_pthread.c:2090-2204 | From any reachable state, and with no further call, a call in progress may come to its end iff it is timed, has or is bound to meet a partner, or some other call still seeks one. |
| `RendezvousEnds.EveryCallMayEnd` | libpthread/lua_pthread.c:2090-2204 | From any reachable state, with whatever calls others begin, a call in progress may come to its end iff it is timed or there is another thread. |
| `TimedResults.ShapeResults` | libpthread/lua_pthread.c:2193-2203 | What a timed call hands to Lua: an error, false, or the stack's top as it was, one value more than the results, with the flag left just below. |
| `RendezvousTheorems.CopiesMakeExchange` | libpthread/lua_pthread.c:2066-2087 | Copying in and then out, wherever a copy stops, is an exchange. |
| `RendezvousTheorems.StepsMakeExchange` | libpthread/lua_pthread.c:2117-2118 | The machine's three copying steps have exactly the effect the `Exchange` method has. |
| `RendezvousTheorems.SpuriousWakeupBreaksPairing` | libpthread/lua_pthread.c:2105-2107 | A run with one spurious wakeup in which a call returns its own arguments and the slot keeps naming a thread that is gone. |
| `RendezvousTheorems.LateTimeoutBreaksPairing` | libpthread/lua_pthread.c:2157-2164 | A run with one late timeout in which one of two partners returns normally and the other reports a timeout. |
| `ThreadLife.Create` | libpthread/lua_pthread.c:395-420 | Succeeds iff a function and copyable arguments follow the optional table; the new state then holds copies of them, and otherwise the reported index is that of the first value that cannot be copied. |
| `ThreadLife.ThreadMain` | libpthread/lua_pthread.c:352-371 | The finished thread's stack is true and its results, or false and its error. |
| `ThreadLife.PCallMultiple` | libpthread/lua_pthread.c:369-370 | A protected call replaces function and arguments by all results or one error value. |
| `ThreadLife.Join` | libpthread/lua_pthread.c:540-547 | Appends copies of the thread's whole stack, or raises an error iff some value cannot be copied. |
| `ThreadLife.CreateAndJoin` | libpthread/lua_pthread.c:383-548 | End to end, also with an attribute table first: the function runs on copies of the arguments iff it is a function and all can be copied; join appends true and copies of exactly its results, in order, or false and a copy of its error, iff those can be copied too. |
| `ThreadLife.EchoRoundTrip` | libpthread/lua_pthread.c:383-548 | A thread that returns its arguments hands them back as if copied once. |
| `LuaTables.TPush` | utils.h:179-186 | Appends the top value to a list without holes. |
| `LuaTables.TPop` | utils.h:188-198 | Pushes the last element and removes it; on an empty list pushes nil and changes nothing. |
| `LuaTables.TPack` | utils.h:200-215 | Replaces the top n values by one fresh table listing them in order. |
| `LuaTables.TUnpack` | utils.h:217-229 | Replaces a table by the values it was filled with, up to a nil that ends it. |
| `LuaTables.BorderOfList` | utils.h:217-229 | The borders of a list with holes are exactly its nils after a value, and its end. |
| `LuaTables.OneBorder` | utils.h:184-185 | A list without nils has one border, so whatever `luaL_len` answers is its length. |
| `LuaTables.ListExactly` | utils.h:200-215 | A table filled with a list has exactly the list's values that are not nil, each at its place counted from 1. |
| `CleanupStack.CleanupHost.constructor` | libpthread/lua_pthread.c:315-320 | A new thread's registry table represents the empty stack. |
| `CleanupStack.CleanupHost.CleanupPush` | libpthread/lua_pthread.c:1839-1851 | The table then represents the old handlers with this call's whole argument list on top. |
| `CleanupStack.CleanupHost.CleanupPop` | libpthread/lua_pthread.c:1824-1836 | Without execution: the newest handler is dropped, if there is one, and the single result is true, above a frame otherwise kept. |
| `CleanupStack.CleanupHost.CleanupPopExecute` | libpthread/lua_pthread.c:1824-1830 | With execution: the newest handler is dropped and called with what it was pushed with, up to a nil; an empty stack raises an error; only a handler with nothing to call can lead to an undefined call. |
| `CleanupStack.CleanupHost.ThreadCleanup` | libpthread/lua_pthread.c:322-339 | Every handler is called exactly once, oldest first, with the values it was pushed with up to a nil that ends them, whichever of them fail; it stops short only at a handler with nothing to call. |
| `CleanupStack.NothingToCall` | libpthread/lua_pthread.c:331-337 | Unpacking a handler may give no value at all iff it was pushed without one or with a nil first. |
| `CleanupStack.WhatIsCalled` | libpthread/lua_pthread.c:331-337 | A handler is called with what it was pushed with up to its end or a nil, the last value being none. |
| `CleanupStack.AllArgumentsSurvive` | libpthread/lua_pthread.c:331-337 | A handler is certain to get all its arguments iff none of them is nil. |
| `CleanupStack.CancelAfter` | libpthread/lua_pthread.c:322-339 | After any history of pushes and pops, executing or not, cancellation calls exactly what an abstract stack would hold; if no handler without a value is ever to be called, all of it is defined. |
| `Refcount.CountIsOwners` | libpthread/refcount.h:16-36 | In every interleaving the count is the number of live userdata modulo 2^64. |
| `Refcount.DestroyedWhenUnowned` | libpthread/lua_pthread.c:461-472 | The object is destroyed iff every userdata has been finalised. |
| `Refcount.NothingAfterLast` | libpthread/lua_pthread.c:2031-2051 | A release that is told it was the last is the last operation on the object. |
| `Refcount.ExactlyOneLast` | libpthread/refcount.h:28-36 | Once every userdata is finalised, exactly one release was told so. |
| `Refcount.LastModuloWord` | libpthread/refcount.h:13-36 | Without a bound on the number of userdata: a release is told it was the last iff the owners are 1 modulo 2^64. |
| `Refcount.WrapIsTheOnlyDanger` | libpthread/refcount.h:13-36 | Without a bound: the object is destroyed under live userdata iff one is finalised while they are more than one and 1 modulo 2^64. |
| `Refcount.WrapHappens` | libpthread/refcount.h:13-36 | Such a history exists. |
| `Refcount.RcObject.Retain` | libpthread/lua_pthread.c:2020-2029 | One more reference, for the retaining thread. |
| `Refcount.RcObject.Release` | libpthread/refcount.h:28-36 | Decrements, and is true exactly for the decrement from 1. |
| `Refcount.RcObject.Finalise` | libpthread/lua_pthread.c:461-472 | One reference less; destroys the object iff it was the last. |
| `Refcount.Replay` | libpthread/lua_pthread.c:442-472 | Any legal interleaving, run on the object, never operates on it after its destruction. |
| `AioProof.NextInv` | aio/lua_aio.c:80-117 | Every step, of any thread on any block or of the kernel, keeps the joint invariant of states, counts and program counters. |
| `AioProof.RunInv` | aio/lua_aio.c:80-117 | That invariant holds in every reachable state. |
| `AioTheorems.KernelOwnership` | aio/lua_aio.c:464-487 | A request the kernel holds belongs to an unfreed block in PENDING or RETURNING, and a thread about to submit finds nothing there. |
| `AioTheorems.FreeSafety` | aio/lua_aio.c:322-377 | When a block is about to be freed, the kernel holds nothing of it, no reference exists, and no other thread is anywhere inside an operation on it. |
| `AioTheorems.NoUseAfterFree` | aio/lua_aio.c:322-377 | No thread touches a freed block, and a block without references is freed or being freed by exactly one thread. |
| `AioTheorems.ReferencesCounted` | aio/lua_aio.c:281-291 | The count equals the number of live userdata in all Lua states. |
| `AioTheorems.Transitions` | aio/lua_aio.c:45-57 | Every step is in the documented table, `aio_state` never goes back to UNINIT, and a freed block never changes. |
| `AioTheorems.SavedState` | aio/lua_aio.c:471-472 | Whenever the state is UNINIT or INIT it equals `aio_state`, and a rollback from the local variable restores the same value. |
| `AioTheorems.BufferRace` | aio/lua_aio.c:411-418 | After the INIT check, the read meets a kernel-held buffer iff another thread with a reference submitted since and nobody reaped that request. |
| `AioTheorems.SoleOwnerReadsSafely` | aio/lua_aio.c:429-436 | A thread that holds all references never reads a buffer the kernel holds. |
| `AioRace.RaceNeedsAnotherOwner` | aio/lua_aio.c:411-436 | From any reachable state in which a thread is about to read a block that is INIT, and with no userdata handed to others meanwhile, some continuation lets the read meet a kernel-held buffer iff another thread has a userdata for the block. |
| `AioRace.RaceNeedsAnotherThread` | aio/lua_aio.c:411-436 | With userdata handed out freely, some continuation does iff there is another thread at all. |
| `AioRace.Drive` | aio/lua_aio.c:451-569 | While one thread is about to read an INIT block, any other in the middle of an operation can get to its end and leave that block alone. |
| `AioObligations.ReturnNeedsCompletion` | aio/lua_aio.c:548-569 | A return that takes a block from PENDING leaves ownership intact in everything that may follow iff the request was completed and unreaped. |
| `AioObligations.EarlyReturnHappens` | aio/lua_aio.c:557-563 | A run in which a return on a request in progress restores INIT while the kernel still holds the buffer. |
| `AioObligations.WaitNeedsReference` | aio/lua_aio.c:791-818 | A `waitcomplete` that yields a block leaves ownership intact and freed blocks untouched in everything that may follow iff no return is at work on the block and some userdata for it is alive. |
| `AioObligations.LastReleaseNeedsNoAdoption` | aio/lua_aio.c:322-379 | Finalising the last userdata does iff no thread has been yielded the block and not retained it yet. |
| `AioTheorems.BufferRaceHappens` | aio/lua_aio.c:411-418 | A run in which the read does meet such a buffer. |
| `AioOps.Shared.Read` | aio/lua_aio.c:451-489 | From UNINIT or INIT: accepted, the state is PENDING and the request in progress; not accepted, all is as it was. From any other state it is refused and nothing changes. |
| `AioOps.Shared.Write` | aio/lua_aio.c:491-528 | The same from INIT only; `l_aio_mlock` and `l_aio_fsync` follow the same course. |
| `AioOps.Shared.Return` | aio/lua_aio.c:548-569 | From PENDING: success leaves state and `aio_state` INIT, failure makes the state what `aio_state` is; the request is reaped either way. Otherwise it is refused and nothing changes. |
| `AioOps.Shared.WaitComplete` | aio/lua_aio.c:791-818 | Adds a reference for the new userdata; success leaves state and `aio_state` INIT, failure makes the state what `aio_state` is. |
| `AioOps.Shared.Free` | aio/lua_aio.c:312-379 | Only the last reference ends the request and frees, and then exactly what the block owns. |
| `AioOps.Lifetime` | aio/lua_aio.c:228-379 | A block built in any way, used by one thread in any order of operations and finalised as often as it was retained, leaves the heap as it was. |
| `AioOps.UseOnce` | aio/lua_aio.c:281-569 | Each use keeps the block in a shape in which every function, and finally freeing it, is allowed. |
| `AioOps.CallsAllowed` | aio/lua_aio.c:312-569 | In every run a thread with a userdata finds a live block; a submission finds no request and a saved state that agrees, and a last release finds a request iff the state is PENDING. |
| `AioPaths.ReadUndisturbed` | aio/lua_aio.c:451-489 | Any undisturbed operation of the machine that begins like a read: from UNINIT or INIT a submission is made, and leaves PENDING and a request in progress if it is accepted, and everything as it was if not; from any other state nothing changes. |
| `AioPaths.ReadHappens` | aio/lua_aio.c:451-489 | From UNINIT or INIT such an operation exists for either answer of the submission. |
| `AioPaths.WriteUndisturbed` | aio/lua_aio.c:491-528 | The same for an operation that begins with the swap from INIT. |
| `AioPaths.WriteHappens` | aio/lua_aio.c:491-528 | From INIT such an operation exists for either answer. |
| `AioPaths.ReturnUndisturbed` | aio/lua_aio.c:548-569 | Any undisturbed operation that begins like a return: from PENDING the request is reaped, and state and `aio_state` become INIT if that succeeds, and the state what `aio_state` is if not; otherwise nothing changes. |
| `AioPaths.ReturnHappens` | aio/lua_aio.c:548-569 | On a completed request such an operation exists for either answer of `aio_return`. |
| `AioPaths.WaitUndisturbed` | aio/lua_aio.c:791-818 | Any undisturbed operation that begins like a `waitcomplete`: one more reference, and the same two endings. |
| `AioPaths.WaitHappens` | aio/lua_aio.c:791-818 | Such an operation exists for either answer of `aio_waitcomplete`. |
| `AioPaths.FreeUndisturbed` | aio/lua_aio.c:312-379 | Any undisturbed finalisation: only the last one ends the request and frees. |
| `AioPaths.CheckUndisturbed` | aio/lua_aio.c:411-436 | Reading `buf` or `iov` undisturbed changes nothing, and gets to the buffer iff the block was INIT. |
| `AioBlock.Rcaiocb.TryBeginRead` | aio/lua_aio.c:88-95 | Two swaps in a row: succeeds iff the block was UNINIT or INIT, and reports which. |
| `AioBlock.Rcaiocb.TryBeginWrite` | aio/lua_aio.c:80-86 | Succeeds iff the block was INIT. |
| `AioBlock.Rcaiocb.TryBeginReturn` | aio/lua_aio.c:97-103 | Succeeds iff the block was PENDING. |
| `AioBlock.Rcaiocb.Rollback` | aio/lua_aio.c:105-110 | Stores the given state and leaves `aio_state`. |
| `AioBlock.Rcaiocb.Commit` | aio/lua_aio.c:112-117 | State and `aio_state` both become INIT. |
| `AioBlock.Rcaiocb.CheckIovecs` | aio/lua_aio.c:152-200 | Succeeds iff memory suffices and the entries are all strings or all sizes that are not negative; INIT iff there is an entry and all are strings; each entry gets its string or its size; on every exit each allocation is owned by the block or freed. |
| `AioBlock.Rcaiocb.CheckBuf` | aio/lua_aio.c:202-226 | The same for a single buffer: succeeds iff it is a string or a size that is not negative and memory suffices, INIT iff it is a string. |
| `AioBlock.FreeIovecs` | aio/lua_aio.c:143-150 | Frees the array and each allocated buffer exactly once, however far it was filled. |
| `AioBlock.Rcaiocb.Destroy` | aio/lua_aio.c:369-376 | Frees exactly what the block owns. |
| `AioBlock.Build` | aio/lua_aio.c:228-264 | Construction succeeds iff memory suffices and the description is in order; the block then owns exactly what was allocated for it and is INIT iff it has contents or no buffer. Otherwise nothing is left allocated. |
| `AioBlock.SharedThenFreed` | aio/lua_aio.c:228-264 | Construction, successful or not, followed by the last release leaves the heap as it was. |
| `SysctlIter.Sysctl` | sys/sysctl/lua_sysctl.c:33-61 | A mib of 24 components zeroed beyond its oid: the name's, with a prefix of all its bytes, or 1 (`CTL_KERN`) with none. |
| `SysctlIter.IterNext` | sys/sysctl/lua_sysctl.c:383-404 | The successor leaf, iff its first `prefix` bytes are the root's; it inherits the prefix. |
| `SysctlIter.Mib.ReadOid` | sys/sysctl/lua_sysctl.c:76-88 | Lists exactly the oid's components. |
| `SysctlIter.MemcmpEqual` | sys/sysctl/lua_sysctl.c:399-402 | The byte comparison says whether the successor is still below the prefix. |
| `SysctlIter.PrefixTest` | sys/sysctl/lua_sysctl.c:399-402 | Comparing bytes of zero-padded oids decides sequence prefix, because a successor is never a proper prefix of its predecessor. |
| `Oid.SameBytes` | sys/sysctl/lua_sysctl.c:399 | Comparing m ints' worth of bytes compares m ints. |
| `Oid.LessIsLexicographic` | sys/sysctl/lua_sysctl.c:383-390 | The order of the leaves: the first difference decides, and without one the shorter oid comes first. |
| `Oid.PrefixConvex` | sys/sysctl/lua_sysctl.c:399-402 | In lexicographic order the extensions of an oid are contiguous: past the first leaf outside, none follow. |
| `SysctlIter.IterateFrom` | sys/sysctl/lua_sysctl.c:407-423 | From any mib as control variable, also one an iteration yielded: exactly the leaves after it that lie below its prefix, in order. |
| `SysctlIter.IterateNamed` | sys/sysctl/lua_sysctl.c:370-423 | The loop over a named root visits the subtree filter of the kernel's leaves, in order, and stops. |
| `SysctlIter.SubtreeExact` | sys/sysctl/lua_sysctl.c:370-423 | That filter is exactly the leaves that strictly extend the root, each once, ascending. |
| `SysctlIter.AfterIsFilter` | sys/sysctl/lua_sysctl.c:383-404 | The leaves after an oid are exactly those lexicographically greater. |
| `SysctlIter.IterateAll` | sys/sysctl/lua_sysctl.c:413-417 | Without a name the loop yields its starting mib, then every later leaf. |
| `FlagTable.PushFlagsArray` | libifconfig/lua_ifconfig.c:145-165 | Builds the encoder's table, staying within the string. |
| `FlagTable.EncodeMeaning` | libifconfig/lua_ifconfig.c:155-160 | With distinct bit numbers: key k is present iff the table names bit k and v / 2^(k-1) is odd, and holds its name. |
| `Bits.BitValues` | libifconfig/lua_ifconfig.c:156-190 | Bit 1 has the value 1, and each bit twice the value of the one before. |
| `Bits.WithBits` | libifconfig/lua_ifconfig.c:190 | Or-ing a bit in sets that bit and no other. |
| `Bits.SameBits` | libifconfig/lua_ifconfig.c:156-190 | Numbers with the same bits are the same. |
| `FlagTable.FindMatch` | libifconfig/lua_ifconfig.c:187-194 | Stops at the first entry whose name is a prefix of the flag. |
| `FlagTable.StrncmpIsPrefix` | libifconfig/lua_ifconfig.c:189 | `strncmp` over the name's length is the prefix test, for flags of any length. |
| `FlagTable.MatchIsFirst` | libifconfig/lua_ifconfig.c:187-194 | A flag decodes to the first entry whose name is its prefix, and to nothing iff there is none. |
| `FlagTable.PopFlagsArray` | libifconfig/lua_ifconfig.c:170-198 | The result has bit i, that is, divided by 2^(i-1) it is odd, iff some flag's first matching entry has bit number i, in whatever order `lua_next` yields them. |
| `FlagTable.DecodeMeaning` | libifconfig/lua_ifconfig.c:179-195 | The same of the specification it is proved against. |
| `FlagTable.RoundTripHolds` | libifconfig/lua_ifconfig.c:145-198 | If v has no shadowed flag, decoding the encoded v in any traversal order gives v masked to the table's bits. |
| `FlagTable.NeverDecoded` | libifconfig/lua_ifconfig.c:187-194 | The bit of a shadowed entry is not set by any flag whatever. |
| `FlagTable.RoundTripFails` | libifconfig/lua_ifconfig.c:145-198 | A value with a shadowed flag never comes back, in any order. |
| `FlagTable.RoundTripByValue` | libifconfig/lua_ifconfig.c:145-198 | For every table with distinct bits, every v and every order: v comes back, masked to the table's bits, iff no name of a flag it has starts with the name of an earlier entry. |
| `FlagTable.RoundTripIsIdentity` | libifconfig/lua_ifconfig.c:145-198 | A v with no bits but those the table names comes back as the very number iff it has no shadowed flag. |
| `FlagTable.ShadowedFlagLost` | libifconfig/lua_ifconfig.c:187-194 | If an earlier name is a prefix of a later one, the later flag alone does not survive. |
| `FlagTable.RoundTripExactly` | libifconfig/lua_ifconfig.c:145-198 | The round trip holds for every v and every order iff no entry's name is a prefix of a later one's. |
| `KernelFlags.TableWritten` | libifconfig/lua_ifconfig.c:51-132 | A table string is the byte 16, then each bit number before its name, then a NUL. |
| `KernelFlags.TableRead` | libifconfig/lua_ifconfig.c:145-198 | Reading such a string gives back its entries, for bit numbers 1 to 32 and names of bytes above 32 and below 128. |
| `KernelFlags.CapabilitiesShadowed` | libifconfig/lua_ifconfig.c:72-100 | In IFCAPBITS exactly RXCSUM_IPV6 and TXCSUM_IPV6, bits 22 and 23, have an earlier entry's name as prefix. |
| `KernelFlags.SurvivingCapabilities` | libifconfig/lua_ifconfig.c:72-100 | With IFCAPBITS, in any order, v comes back iff it has neither bit 22 nor bit 23. |
| `KernelFlags.ChecksumsDecode` | libifconfig/lua_ifconfig.c:72-100 | RXCSUM_IPV6 alone decodes to 1 like RXCSUM, TXCSUM_IPV6 to 2 like TXCSUM. |
| `KernelFlags.UpAlone` | libifconfig/lua_ifconfig.c:51-70 | With IFFBITS, 1 encodes to the table with UP at key 1. |
| `KernelFlags.NeighbourFlagsShadowed` | libifconfig/lua_ifconfig.c:114-126 | ND6BITS has a shadowed entry. |
| `KernelFlags.InterfaceFlagsDistinct` | libifconfig/lua_ifconfig.c:51-70 | IFFBITS has none. |
| `KernelFlags.AddressFlagsDistinct` | libifconfig/lua_ifconfig.c:102-112 | Nor has IN6BITS. |
| `KernelFlags.HashFlagsDistinct` | libifconfig/lua_ifconfig.c:128-132 | Nor has LAGGHASHBITS. |
| `KernelFlags.WhichRoundTrip` | libifconfig/lua_ifconfig.c:51-132 | Of the five tables the file writes out, as the strings they are, IFFBITS, IN6BITS and LAGGHASHBITS round-trip for every value and order, IFCAPBITS and ND6BITS do not. |
| `ForeachFold.ForeachCb` | libifconfig/lua_ifconfig.c:476-500 | From exactly (h, cb, acc) to exactly (h, cb, acc'), with acc' the first result of cb(h, item, acc), or nil. |
| `ForeachFold.Walk` | libifconfig/lua_ifconfig.c:476-500 | After any number of items the stack is (h, cb, acc') with acc' the left fold; an error ends it there. |
| `ForeachFold.Normalise` | libifconfig/lua_ifconfig.c:575-580 | Any number of extra or missing arguments becomes exactly the maximum, a missing last one nil. |
| `ForeachFold.ForeachIface` | libifconfig/lua_ifconfig.c:565-586 | Checks its arguments in order; then the left fold over the interfaces is returned, unless the callback raised its error or the library reports a failure. |
| `ForeachFold.ForeachIfaddr` | libifconfig/lua_ifconfig.c:594-617 | The same over an interface's addresses, with the interface taken out of the frame. |
| `ForeachFold.FoldAppend` | libifconfig/lua_ifconfig.c:565-617 | Folding over a concatenation is folding twice, for callbacks with any effects. |
| `ForeachFold.OneMore` | libifconfig/lua_ifconfig.c:484-500 | Each item is one call with handle, item and accumulator, in that order; nothing is called after an error. |
| `ForeachFold.VisitsInOrder` | libifconfig/lua_ifconfig.c:565-617 | The callback is called for the items in order without a gap, all of them unless it raises. |
| `ForeachFold.ErrorIsLastVisit` | libifconfig/lua_ifconfig.c:565-617 | If it raises, the raising call is the last one and its error is the outcome. |
| `SockaddrPack.Measure` | netinet/sctp/lua_sctp.c:38-47 | Computes the size of all records iff every element has string data. |
| `SockaddrPack.WriteRecord` | netinet/sctp/lua_sctp.c:59-65 | Writes the length of data and header modulo 256, the family modulo 256 and the data, and nothing outside; advances by the length written. |
| `SockaddrPack.Fill` | netinet/sctp/lua_sctp.c:51-67 | No write leaves the measured buffer, whatever the data lengths; if all addresses fit, the buffer is their packed form. |
| `SockaddrPack.CheckAddrs` | netinet/sctp/lua_sctp.c:25-70 | Both passes together: exactly which error comes first, and otherwise a buffer of the measured size. |
| `SockaddrPack.PushAddrs` | netinet/sctp/lua_sctp.c:72-81 | Reads n records by their own lengths. |
| `SockaddrPack.RecordsByLength` | netinet/sctp/lua_sctp.c:72-81 | Each record is its second byte as family and its data up to the length in its first byte, where the next one starts; a length that leaves the buffer ends it. |
| `SockaddrPack.FirstRecord` | sys/socket/lua_socket.h:16-25 | A record that fits is read back, whatever follows it. |
| `SockaddrPack.UnpackPack` | sys/socket/lua_socket.h:16-25 | Unpacking the packed form of addresses that fit gives them back. |
| `SockaddrPack.UnpackFits` | sys/socket/lua_socket.h:16-25 | Whatever the buffer holds, only addresses that fit come out of it. |
| `SockaddrPack.RoundTrip` | netinet/sctp/lua_sctp.c:25-81 | Packing then unpacking returns every family and datum in its place iff each datum is at most 253 bytes and each family fits a byte. |
| `ExtattrList.PushList` | sys/extattr/lua_extattr.c:233-244 | Leaves one table whose keys are 1 to the number of names walked over, each holding its name character by character, staying inside the list, or stops where the code would leave it. |
| `ExtattrList.EncodeCons` | sys/extattr/lua_extattr.c:233-244 | The kernel's list is one byte of length before each name. |
| `ExtattrList.WalkOfEncoded` | sys/extattr/lua_extattr.c:236-243 | On any list of whole records: all names in order if none exceeds 127 bytes, and no result at all otherwise. |
| `ExtattrList.WalkIsExact` | sys/extattr/lua_extattr.c:236-243 | A walk that stays inside accounts for every byte of the list. |
| `ExtattrList.LongNameRefused` | sys/extattr/lua_extattr.c:237 | A single name of 128 bytes loses the list. |
| `InotifyRead.PushEvent` | sys/inotify/lua_inotify.c:99-117 | Reads the event at an offset from its 16-byte header and name, advancing by the whole record. |
| `InotifyRead.EventBytes` | sys/inotify/lua_inotify.c:99-117 | Which bytes are what: wd, mask and len at 0, 4 and 12, the name from 16 up to a NUL iff len is not 0; there is no event iff the header or a NUL is missing. |
| `InotifyRead.ReadEvents` | sys/inotify/lua_inotify.c:132-138 | The loop returns the walk over the bytes read, and terminates because the residual falls. |
| `InotifyRead.FirstRecord` | sys/inotify/lua_inotify.c:99-117 | A record the kernel queued is read back, whatever follows it. |
| `InotifyRead.WalkOfEncoded` | sys/inotify/lua_inotify.c:132-138 | Any number of whole records is delivered exactly, in order. |

## Left out

- `l_lio_listio`: `testcookie` is called with a relative index after pushing, and the unavailable branch rolls
  back one slot too many, so a property of the batch would not be about this code.
- The result count of an executing `cleanup.pop`: the indices do not line up with the intended layout; the
  model stops after the call.
- RendezvousTheorems.Pairing: says nothing of what a timed call hands to Lua; TimedCallHands does.
- RendezvousEnds.EveryCallMayEnd: says that a call may end, not that a fair scheduler makes it; `SureCallsEnd` says
  which calls end under any scheduler once nobody else comes.
- Error returns of `pthread_mutex_lock`, `pthread_cond_wait` other than a timeout, `pthread_cond_signal` and
  `pthread_create`; attributes of threads; cancellation of a thread inside an exchange.
- Local (const) control blocks, whose constructor is not implemented; `error`, `suspend` and `cancel` as Lua
  calls; `__close` before `__gc`, whose early return keeps the cookie.
- Upvalues shared between closures and cyclic upvalue graphs: a closure value carries its upvalues, so
  sharing is not represented and recursion always ends.
- CleanupStack.CleanupHost.ThreadCleanup: what follows a protected call with -1 arguments, which Lua does not
  define, is not modelled; neither is it by CleanupStack.CleanupHost.CleanupPopExecute and CleanupStack.CancelAfter.
- CleanupStack.CleanupHost.PCall: a handler's own effects are not modelled, only what it is called with.
- SockaddrPack.PushAddrs and ExtattrList.PushList: the buffer they only read is a sequence of bytes, and reading
  outside it is a separate outcome.
- InotifyRead.PushEvent: the event is a record, not a Lua table with string keys; the cookie is not exposed by
  the code either.  Bytes after the end of what was read count as out of bounds.
- SockaddrPack.CheckAddrs: the table elements are given by their two fields, without metamethods.
- `checkaddr` of sys/socket/lua_socket.h, which writes into a caller's buffer of fixed size.
- AioOps.CallsAllowed: says nothing of the heap, which the state machine does not have; AioOps.Lifetime does, for
  one thread.  It does not say when `Return` and `WaitComplete` may be called, which is up to the Lua program;
  `AioObligations` says exactly when.
- SysctlIter.IterNext: errors of `sysctl` other than ENOENT end the loop with an error and are not modelled;
  names, formats and values of nodes are not either.
- Error message text, argument type checks beyond those stated, real time, C11 memory orders, and allocation
  limits other than `malloc` failing.
- libzfs, libbe, libnv, libnvpair, libkvm, libmagic, bsddialog, dpv, fetch, unistd, fcntl, acl, mac, capsicum,
  casper, netdb, b64 and xor: thin wrappers or small arithmetic.
