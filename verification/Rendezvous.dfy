/**
 Any number of threads meeting at one `struct rcrendezvous`.

 Each thread runs `rendezvous:exchange(...)` or `rendezvous:timedexchange(sec, nsec, ...)`
 over and over.  One step is one mutex, condition-variable or slot operation, or one
 `copyn` between the two Lua stacks.  The `peer` and `outcome` of a call are history:
 no step reads them.
 */
module Rendezvous {
  import opened Wrappers
  import opened Lua
  import opened DeepCopy
  import opened Exchange
  import opened TimedResults

  datatype Kind = Plain | Timed

  /** How many values precede the exchanged arguments on the caller's stack. */
  function Base(kind: Kind): nat {
    if kind.Plain? then 1 else 3
  }

  /** How many values a call with that many results hands to Lua. */
  function HandedCount(kind: Kind, nres: int): int {
    if kind.Timed? && nres >= 0 then nres + 1 else nres
  }

  datatype Pc =
    | Idle
    | Locking    // about to lock the mutex
    | Testing    // holds it, about to test the slot
    | Registered // count pushed and slot set, about to wait
    | Blocked    // inside pthread_cond_wait
    | Woken      // signalled, about to take the mutex back
    | Resumed    // holds it again, about to read its result count
    | Expired    // timed out, about to take the mutex back
    | TimedOut   // timed out and holds the mutex
    | Counting   // found a waiter, about to take its count
    | CopyingIn  // about to copy the waiter's arguments
    | CopyingOut // about to copy its own arguments
    | Clearing   // about to empty the slot
    | Signalling // about to signal
    | Unlocking  // about to unlock
    | Returning  // unlocked

  datatype Thread = Thread(pc: Pc, kind: Kind, narg: nat, nres: int, stack: seq<Value>, call: nat)

  /** `values` are the results of an exchange, `handed` is what the caller gets in Lua. */
  datatype Outcome =
    | Running
    | Returned(values: seq<Value>, handed: seq<Value>)
    | Failed(message: Value)
    | NoPartner

  /** `frame` is the whole call frame, `args` what of it is offered for exchange. */
  datatype Call = Call(
    thread: nat,
    kind: Kind,
    frame: seq<Value>,
    args: seq<Value>,
    peer: Option<nat>,
    outcome: Outcome)

  datatype State = State(
    threads: seq<Thread>,
    mutex: Option<nat>,
    waiter: Option<nat>,
    calls: seq<Call>)

  /** What the environment may do beyond the assumptions the code relies on. */
  datatype Environment = Environment(spuriousWakeups: bool, lateTimeouts: bool)

  /** No spurious wakeups, and a timeout only fires while the thread is still registered. */
  const ASSUMED := Environment(false, false)

  /** The globals table of a thread's own Lua state. */
  function GlobalsOf(thread: nat): nat {
    thread
  }

  ghost predicate Init(s: State) {
    && (forall t | 0 <= t < |s.threads| :: s.threads[t].pc == Idle)
    && s.mutex == None && s.waiter == None && s.calls == []
  }

  function With(s: State, t: nat, th: Thread): State
    requires t < |s.threads|
  {
    s.(threads := s.threads[t := th])
  }

  ghost predicate Begin(s: State, s': State, t: nat, kind: Kind, frame: seq<Value>)
    requires t < |s.threads|
  {
    && s.threads[t].pc == Idle
    && |frame| >= Base(kind) && (kind == Timed ==> frame[1].Integer? && frame[2].Integer?)
    && s' == With(s, t, Thread(Locking, kind, |frame| - Base(kind), 0, frame, |s.calls|))
             .(calls := s.calls + [Call(t, kind, frame, frame[Base(kind)..], None, Running)])
  }

  ghost predicate Lock(s: State, s': State, t: nat)
    requires t < |s.threads|
  {
    && s.threads[t].pc == Locking && s.mutex == None
    && s' == With(s, t, s.threads[t].(pc := Testing)).(mutex := Some(t))
  }

  /** `pthread_mutex_timedlock` gives up. */
  ghost predicate LockTimeout(s: State, s': State, t: nat)
    requires t < |s.threads|
  {
    && s.threads[t].pc == Locking && s.threads[t].kind == Timed
    && s' == With(s, t, s.threads[t].(pc := Returning, nres := -2))
  }

  ghost predicate Register(s: State, s': State, t: nat)
    requires t < |s.threads|
  {
    var th := s.threads[t];
    && th.pc == Testing && s.waiter == None
    && s' == With(s, t, th.(pc := Registered, stack := th.stack + [Integer(th.narg)])).(waiter := Some(t))
  }

  ghost predicate FindWaiter(s: State, s': State, t: nat)
    requires t < |s.threads|
  {
    && s.threads[t].pc == Testing && s.waiter != None
    && s' == With(s, t, s.threads[t].(pc := Counting))
  }

  /** `pthread_cond_wait` releases the mutex and blocks in one step. */
  ghost predicate Sleep(s: State, s': State, t: nat)
    requires t < |s.threads|
  {
    && s.threads[t].pc == Registered
    && s' == With(s, t, s.threads[t].(pc := Blocked)).(mutex := None)
  }

  ghost predicate TakeCount(s: State, s': State, t: nat, w: nat)
    requires t < |s.threads| && w < |s.threads|
  {
    var th, wh := s.threads[t], s.threads[w];
    && th.pc == Counting && s.waiter == Some(w) && w != t
    && |wh.stack| > 0 && wh.stack[|wh.stack| - 1].Integer?
    && th.call < |s.calls| && wh.call < |s.calls|
    && s' == State(
         s.threads[t := th.(pc := CopyingIn, nres := wh.stack[|wh.stack| - 1].i)]
                  [w := wh.(stack := wh.stack[..|wh.stack| - 1])],
         s.mutex, s.waiter,
         s.calls[th.call := s.calls[th.call].(peer := Some(wh.call))]
                [wh.call := s.calls[wh.call].(peer := Some(th.call))])
  }

  ghost predicate CopyIn(s: State, s': State, t: nat, w: nat, own: seq<Value>, theirs: seq<Value>, r: int, m: Value)
    requires t < |s.threads| && w < |s.threads|
  {
    var th, wh := s.threads[t], s.threads[w];
    && th.pc == CopyingIn && s.waiter == Some(w) && w != t
    && 0 <= th.nres <= |wh.stack| && m.Str?
    && CopyOutcome(wh.stack, th.stack, |wh.stack| - th.nres + 1, th.nres, GlobalsOf(t), theirs, own, r)
    && s' == s.(threads := if r == 0 then
         s.threads[t := th.(pc := CopyingOut, stack := own)][w := wh.(stack := theirs)]
       else
         s.threads[t := th.(pc := Clearing, nres := -1, stack := own + [m])]
                  [w := wh.(stack := theirs + [m, Integer(-1)])])
  }

  ghost predicate CopyOut(s: State, s': State, t: nat, w: nat, own: seq<Value>, theirs: seq<Value>, r: int, m: Value)
    requires t < |s.threads| && w < |s.threads|
  {
    var th, wh := s.threads[t], s.threads[w];
    && th.pc == CopyingOut && s.waiter == Some(w) && w != t
    && Base(th.kind) + th.narg <= |th.stack| && m.Str?
    && CopyOutcome(th.stack, wh.stack, Base(th.kind) + 1, th.narg, GlobalsOf(w), own, theirs, r)
    && s' == s.(threads := if r == 0 then
         s.threads[t := th.(pc := Clearing, stack := own)]
                  [w := wh.(stack := theirs + [Integer(th.narg)])]
       else
         s.threads[t := th.(pc := Clearing, nres := -1, stack := own + [m])]
                  [w := wh.(stack := theirs + [m, Integer(-1)])])
  }

  ghost predicate Clear(s: State, s': State, t: nat)
    requires t < |s.threads|
  {
    && s.threads[t].pc == Clearing
    && s' == With(s, t, s.threads[t].(pc := Signalling)).(waiter := None)
  }

  function Signalled(threads: seq<Thread>, t: nat, woken: set<nat>): (r: seq<Thread>)
    ensures |r| == |threads|
  {
    seq(|threads|, u requires 0 <= u < |threads| =>
      if u == t then threads[u].(pc := Unlocking)
      else if u in woken then threads[u].(pc := Woken)
      else threads[u])
  }

  /** POSIX: at least one of the threads blocked on the condition variable wakes, if there is any. */
  ghost predicate Signal(s: State, s': State, t: nat, woken: set<nat>)
    requires t < |s.threads|
  {
    && s.threads[t].pc == Signalling
    && (forall u <- woken :: u < |s.threads| && s.threads[u].pc == Blocked)
    && (woken == {} ==> forall u | 0 <= u < |s.threads| :: s.threads[u].pc != Blocked)
    && s' == s.(threads := Signalled(s.threads, t, woken))
  }

  ghost predicate Reacquire(s: State, s': State, t: nat)
    requires t < |s.threads|
  {
    && s.threads[t].pc == Woken && s.mutex == None
    && s' == With(s, t, s.threads[t].(pc := Resumed)).(mutex := Some(t))
  }

  ghost predicate ReadCount(s: State, s': State, t: nat)
    requires t < |s.threads|
  {
    var th := s.threads[t];
    && th.pc == Resumed && |th.stack| > 0 && th.stack[|th.stack| - 1].Integer?
    && s' == With(s, t, th.(pc := Unlocking, nres := th.stack[|th.stack| - 1].i, stack := th.stack[..|th.stack| - 1]))
  }

  /** A timed wait ends; the thread has the mutex and is still registered. */
  ghost predicate Timeout(s: State, s': State, t: nat)
    requires t < |s.threads|
  {
    && s.threads[t].pc == Blocked && s.threads[t].kind == Timed
    && s.waiter == Some(t) && s.mutex == None
    && s' == With(s, t, s.threads[t].(pc := TimedOut)).(mutex := Some(t))
  }

  ghost predicate Withdraw(s: State, s': State, t: nat)
    requires t < |s.threads|
  {
    && s.threads[t].pc == TimedOut
    && s' == With(s, t, s.threads[t].(pc := Unlocking, nres := -2)).(waiter := None)
  }

  ghost predicate Unlock(s: State, s': State, t: nat)
    requires t < |s.threads|
  {
    && s.threads[t].pc == Unlocking
    && s' == With(s, t, s.threads[t].(pc := Returning)).(mutex := None)
  }

  /** A call ends; what a timed call hands over is shaped by `TimedResults.ShapeResults`. */
  ghost predicate Return(s: State, s': State, t: nat)
    requires t < |s.threads|
  {
    var th := s.threads[t];
    && th.pc == Returning && th.call < |s.calls|
    && HandedCount(th.kind, th.nres) <= |th.stack| && |th.stack| > 0
    && var outcome :=
         if th.nres >= 0 then Returned(Handed(th.stack, th.nres), Handed(th.stack, HandedCount(th.kind, th.nres)))
         else if th.nres == -1 then Failed(th.stack[|th.stack| - 1])
         else NoPartner;
       s' == With(s, t, th.(pc := Idle)).(calls := s.calls[th.call := s.calls[th.call].(outcome := outcome)])
  }

  // Steps the code does not guard against.

  ghost predicate SpuriousWakeup(s: State, s': State, t: nat)
    requires t < |s.threads|
  {
    s.threads[t].pc == Blocked && s' == With(s, t, s.threads[t].(pc := Woken))
  }

  ghost predicate Expire(s: State, s': State, t: nat)
    requires t < |s.threads|
  {
    && s.threads[t].pc == Blocked && s.threads[t].kind == Timed
    && s' == With(s, t, s.threads[t].(pc := Expired))
  }

  ghost predicate ReacquireLate(s: State, s': State, t: nat)
    requires t < |s.threads|
  {
    && s.threads[t].pc == Expired && s.mutex == None
    && s' == With(s, t, s.threads[t].(pc := TimedOut)).(mutex := Some(t))
  }

  /** One step of `exchange` by t on its own stack and w's. */
  ghost predicate MeetsWith(s: State, s': State, t: nat, w: nat)
    requires t < |s.threads| && w < |s.threads|
  {
    || TakeCount(s, s', t, w)
    || (exists own, theirs, r, m :: CopyIn(s, s', t, w, own, theirs, r, m))
    || (exists own, theirs, r, m :: CopyOut(s, s', t, w, own, theirs, r, m))
  }

  ghost predicate Meets(s: State, s': State, t: nat)
    requires t < |s.threads|
  {
    exists w: nat | w < |s.threads| :: MeetsWith(s, s', t, w)
  }

  ghost predicate Step(env: Environment, s: State, s': State, t: nat)
    requires t < |s.threads|
  {
    || (exists kind, frame :: Begin(s, s', t, kind, frame))
    || Lock(s, s', t) || LockTimeout(s, s', t) || Register(s, s', t) || FindWaiter(s, s', t)
    || Sleep(s, s', t) || Meets(s, s', t) || Clear(s, s', t)
    || (exists woken :: Signal(s, s', t, woken))
    || Reacquire(s, s', t) || ReadCount(s, s', t) || Timeout(s, s', t) || Withdraw(s, s', t)
    || Unlock(s, s', t) || Return(s, s', t)
    || (env.spuriousWakeups && SpuriousWakeup(s, s', t))
    || (env.lateTimeouts && (Expire(s, s', t) || ReacquireLate(s, s', t)))
  }

  ghost predicate Next(env: Environment, s: State, s': State) {
    exists t: nat | t < |s.threads| :: Step(env, s, s', t)
  }

  /** A finite run from an initial state. */
  ghost predicate Run(env: Environment, run: seq<State>) {
    && |run| > 0 && Init(run[0])
    && forall i | 0 <= i < |run| - 1 :: Next(env, run[i], run[i + 1])
  }

  // --- the invariant ---

  predicate HoldsMutex(pc: Pc) {
    pc in {Testing, Registered, Resumed, TimedOut, Counting, CopyingIn, CopyingOut, Clearing, Signalling, Unlocking}
  }

  /** The thread has bound its call to the waiter's and is working on both stacks. */
  predicate Serving(pc: Pc) {
    pc in {CopyingIn, CopyingOut, Clearing, Signalling}
  }

  /** The stack a call starts with: `Base(kind)` fixed values, then the arguments. */
  predicate HasArgs(stack: seq<Value>, call: Call) {
    && stack == call.frame
    && |stack| == Base(call.kind) + |call.args| && stack[Base(call.kind)..] == call.args
  }

  predicate HasArgsAndCount(stack: seq<Value>, call: Call) {
    && |stack| > 0 && HasArgs(stack[..|stack| - 1], call)
    && stack[|stack| - 1] == Integer(|call.args|)
  }

  /** Call c is over up to unlocking: its stack and result count say how it ended. */
  ghost predicate Settled(calls: seq<Call>, c: nat, stack: seq<Value>, nres: int)
    requires c < |calls|
  {
    var call := calls[c];
    && |stack| > 0
    && match call.peer
       case None => nres == -2 && call.kind == Timed
       case Some(d) =>
         && d < |calls|
         && if AllCopyable(call.args) && AllCopyable(calls[d].args) then
              && nres == |calls[d].args| <= |stack|
              && HasArgs(stack[..|stack| - nres], call)
              && OnTop(Copies(calls[d].args, GlobalsOf(call.thread)), stack)
            else
              nres == -1 && stack[|stack| - 1].Str?
  }

  /** The same, as the active thread leaves it for the waiter: the count is still on the stack. */
  ghost predicate Delivered(calls: seq<Call>, c: nat, stack: seq<Value>)
    requires c < |calls|
  {
    && |stack| > 1 && stack[|stack| - 1].Integer? && calls[c].peer != None
    && Settled(calls, c, stack[..|stack| - 1], stack[|stack| - 1].i)
  }

  ghost predicate CallsOk(s: State) {
    && (forall c | 0 <= c < |s.calls| :: s.calls[c].thread < |s.threads|)
    && (forall c | 0 <= c < |s.calls| :: s.calls[c].outcome == Running ==>
          var th := s.threads[s.calls[c].thread]; th.pc != Idle && th.call == c)
    && (forall t | 0 <= t < |s.threads| :: s.threads[t].pc != Idle ==>
          var th := s.threads[t];
          && th.call < |s.calls| && s.calls[th.call].thread == t
          && s.calls[th.call].outcome == Running
          && s.calls[th.call].kind == th.kind && th.narg == |s.calls[th.call].args|)
  }

  ghost predicate PeersOk(calls: seq<Call>) {
    forall c | 0 <= c < |calls| && calls[c].peer.Some? ::
      var d := calls[c].peer.value;
      d < |calls| && calls[d].peer == Some(c) && calls[d].thread != calls[c].thread
  }

  /** How call c ended agrees with the arguments of its partner. */
  ghost predicate OutcomeOk(calls: seq<Call>, c: nat)
    requires c < |calls|
  {
    var call := calls[c];
    match call.outcome
    case Running => true
    case Returned(vs, handed) =>
      && call.peer.Some? && call.peer.value < |calls|
      && AllCopyable(call.args) && AllCopyable(calls[call.peer.value].args)
      && vs == Copies(calls[call.peer.value].args, GlobalsOf(call.thread))
      && (call.kind == Plain ==> handed == vs)
      && (call.kind == Timed ==> |call.frame| > 0 && handed == [call.frame[|call.frame| - 1]] + vs)
    case Failed(m) =>
      && call.peer.Some? && call.peer.value < |calls| && m.Str?
      && !(AllCopyable(call.args) && AllCopyable(calls[call.peer.value].args))
    case NoPartner => call.peer == None && call.kind == Timed
  }

  ghost predicate SlotOk(s: State) {
    && (forall t | 0 <= t < |s.threads| :: HoldsMutex(s.threads[t].pc) <==> s.mutex == Some(t))
    && (s.mutex.Some? ==> s.mutex.value < |s.threads|)
    && (s.waiter.Some? ==>
          && s.waiter.value < |s.threads|
          && s.threads[s.waiter.value].pc in {Registered, Blocked, TimedOut})
    && (forall t | 0 <= t < |s.threads| ::
          && (s.threads[t].pc in {Registered, TimedOut} ==> s.waiter == Some(t))
          && (s.threads[t].pc in {Counting, CopyingIn, CopyingOut, Clearing} ==> s.waiter.Some?)
          && (s.threads[t].pc == Signalling ==> s.waiter == None)
          && s.threads[t].pc != Expired)
  }

  /** Thread t, which holds the mutex, and thread w, which is blocked, are exchanging. */
  ghost predicate Pair(s: State, t: nat, w: nat)
    requires t < |s.threads| && w < |s.threads|
  {
    && t != w && Serving(s.threads[t].pc) && s.threads[w].pc == Blocked
    && s.threads[t].call < |s.calls|
    && s.calls[s.threads[t].call].peer == Some(s.threads[w].call)
  }

  ghost predicate ThreadOk(s: State, t: nat)
    requires t < |s.threads| && CallsOk(s)
  {
    var th := s.threads[t];
    th.pc != Idle ==>
      var call := s.calls[th.call];
      match th.pc
      case Idle | Expired => true
      case Locking | Testing | Counting => call.peer == None && HasArgs(th.stack, call)
      case Registered => call.peer == None && HasArgsAndCount(th.stack, call)
      case TimedOut => call.peer == None && call.kind == Timed && HasArgsAndCount(th.stack, call)
      case Blocked =>
        if call.peer == None then
          s.waiter == Some(t) && HasArgsAndCount(th.stack, call)
        else
          && s.mutex.Some? && s.mutex.value < |s.threads| && Pair(s, s.mutex.value, t)
          && (s.threads[s.mutex.value].pc != Signalling ==> s.waiter == Some(t))
          && (if s.threads[s.mutex.value].pc in {CopyingIn, CopyingOut} then HasArgs(th.stack, call)
              else Delivered(s.calls, th.call, th.stack))
      case Woken | Resumed => Delivered(s.calls, th.call, th.stack)
      case CopyingIn =>
        && HasArgs(th.stack, call) && call.peer.Some? && call.peer.value < |s.calls|
        && th.nres == |s.calls[call.peer.value].args|
      case CopyingOut =>
        && call.peer.Some? && call.peer.value < |s.calls|
        && var theirs := s.calls[call.peer.value].args;
        && th.nres == |theirs| && AllCopyable(theirs)
        && |th.stack| == Base(call.kind) + |call.args| + |theirs|
        && HasArgs(th.stack[..Base(call.kind) + |call.args|], call)
        && OnTop(Copies(theirs, GlobalsOf(t)), th.stack)
      case Clearing | Signalling => call.peer.Some? && Settled(s.calls, th.call, th.stack, th.nres)
      case Unlocking | Returning => Settled(s.calls, th.call, th.stack, th.nres)
  }

  /** A serving thread's partner is the thread in the slot, until the slot is cleared. */
  ghost predicate PartnersOk(s: State)
    requires CallsOk(s)
  {
    forall t | 0 <= t < |s.threads| && Serving(s.threads[t].pc) ::
      var peer := s.calls[s.threads[t].call].peer;
      && peer.Some? && peer.value < |s.calls|
      && var w := s.calls[peer.value].thread;
         w < |s.threads| && Pair(s, t, w)
  }

  ghost predicate Inv(s: State) {
    && CallsOk(s) && PeersOk(s.calls) && SlotOk(s) && PartnersOk(s)
    && (forall t | 0 <= t < |s.threads| :: ThreadOk(s, t))
    && (forall c | 0 <= c < |s.calls| :: OutcomeOk(s.calls, c))
  }

  /** The same calls; partners and outcomes may have been filled in and calls added. */
  ghost predicate SameArgs(calls: seq<Call>, calls': seq<Call>) {
    && |calls| <= |calls'|
    && forall c | 0 <= c < |calls| ::
         && calls'[c].thread == calls[c].thread && calls'[c].kind == calls[c].kind
         && calls'[c].frame == calls[c].frame && calls'[c].args == calls[c].args
  }

  ghost predicate SameCalls(calls: seq<Call>, calls': seq<Call>) {
    && SameArgs(calls, calls')
    && forall c | 0 <= c < |calls| :: calls'[c].peer == calls[c].peer
  }

  /** A step of thread t outside the exchange itself. */
  ghost predicate Quiet(s: State, s': State, t: nat) {
    && |s'.threads| == |s.threads| && t < |s.threads|
    && (forall u | 0 <= u < |s.threads| && u != t :: s'.threads[u] == s.threads[u])
    && SameCalls(s.calls, s'.calls)
    && (s'.mutex == s.mutex || s.mutex == None || s.mutex == Some(t))
    && (s'.waiter == s.waiter || s.waiter == None || s.waiter == Some(t))
    && !Serving(s.threads[t].pc)
    && (s.threads[t].pc == Blocked ==> s.mutex == None)
  }

  /** A step of the exchange that thread t, holding the mutex, performs on its own stack and w's. */
  ghost predicate Joint(s: State, s': State, t: nat, w: nat) {
    && |s'.threads| == |s.threads| && t < |s.threads| && w < |s.threads| && t != w
    && (forall u | 0 <= u < |s.threads| && u != t && u != w :: s'.threads[u] == s.threads[u])
    && |s'.calls| == |s.calls| && SameArgs(s.calls, s'.calls)
    && s.mutex == Some(t) && s'.mutex == s.mutex
    && s.threads[t].pc in {Counting, CopyingIn, CopyingOut, Clearing, Signalling}
    && s.threads[w].pc == Blocked
  }
}
