/** What the rendezvous promises in every run, and what it promises only under the stated assumptions. */
module RendezvousTheorems {
  import opened Wrappers
  import opened Lua
  import opened DeepCopy
  import opened Exchange
  import opened Rendezvous
  import opened RendezvousProof
  import opened RendezvousCourse

  // --- what a call offers ---

  /** The rendezvous, and a timed call's two numbers, come before what is offered. */
  predicate Framed(call: Call) {
    if call.kind == Plain then |call.frame| >= 1 && call.args == call.frame[1..]
    else |call.frame| >= 3 && call.frame[1].Integer? && call.frame[2].Integer? && call.args == call.frame[3..]
  }

  lemma NextFrames(s: State, s': State, c: nat)
    requires Next(ASSUMED, s, s') && c < |s'.calls|
    ensures c < |s.calls| ==>
              s'.calls[c].frame == s.calls[c].frame && s'.calls[c].kind == s.calls[c].kind
              && s'.calls[c].args == s.calls[c].args
    ensures c >= |s.calls| ==> Framed(s'.calls[c])
  {
    hide Step, Course;
    var t: nat :| t < |s.threads| && Step(ASSUMED, s, s', t);
    StepMoves(s, s', t);
  }

  lemma {:induction false} AlwaysFramed(run: seq<State>, i: nat, c: nat)
    requires Run(ASSUMED, run) && i < |run| && c < |run[i].calls|
    ensures Framed(run[i].calls[c])
    decreases i
  {
    hide Next;
    if i > 0 {
      assert Next(ASSUMED, run[i - 1], run[i - 1 + 1]);
      NextFrames(run[i - 1], run[i], c);
      if c < |run[i - 1].calls| {
        AlwaysFramed(run, i - 1, c);
      }
    }
  }

  /**
   Pairing.  A call that returns normally has exactly one partner, which has it as partner in
   turn and belongs to another thread; its results are copies of the partner's arguments, all
   of them and in order; and the partner cannot end any other way than normally.  An untimed
   call hands exactly its results to Lua.
   */
  lemma Pairing(run: seq<State>, i: nat, c: nat)
    requires Run(ASSUMED, run) && i < |run| && c < |run[i].calls| && run[i].calls[c].outcome.Returned?
    ensures var calls := run[i].calls;
            && calls[c].peer.Some?
            && var d := calls[c].peer.value;
            && d < |calls| && calls[d].peer == Some(c) && calls[d].thread != calls[c].thread
            && |calls[d].frame| >= (if calls[d].kind == Plain then 1 else 3)
            && calls[c].outcome.values
               == Copies(if calls[d].kind == Plain then calls[d].frame[1..] else calls[d].frame[3..],
                         GlobalsOf(calls[c].thread))
            && (calls[d].outcome == Running || calls[d].outcome.Returned?)
            && (calls[c].kind == Plain ==> calls[c].outcome.handed == calls[c].outcome.values)
            && forall e | 0 <= e < |calls| && calls[e].peer == Some(c) :: e == d
  {
    RunInv(run, i);
    var calls := run[i].calls;
    assert OutcomeOk(calls, c);
    assert OutcomeOk(calls, calls[c].peer.value);
    AlwaysFramed(run, i, calls[c].peer.value);
  }

  /**
   Isolation of the values.  What two threads got from exchanges has nothing of either state in it that
   the other could reach too: no table, userdata, coroutine or C function, at any depth.
   */
  lemma NothingShared(run: seq<State>, i: nat, c: nat, d: nat, x: Value)
    requires Run(ASSUMED, run) && i < |run| && c < |run[i].calls| && d < |run[i].calls|
    requires var calls := run[i].calls;
             && calls[c].thread != calls[d].thread
             && calls[c].outcome.Returned? && calls[d].outcome.Returned?
             && (exists v <- calls[c].outcome.values :: Reachable(x, v))
             && (exists v <- calls[d].outcome.values :: Reachable(x, v))
    ensures !x.Table? && !x.Userdata? && !x.Coroutine? && !x.CFunction?
  {
    RunInv(run, i);
    var calls := run[i].calls;
    ReachesOwn(calls, c, x);
    ReachesOwn(calls, d, x);
  }

  lemma ReachesOwn(calls: seq<Call>, c: nat, x: Value)
    requires c < |calls| && OutcomeOk(calls, c) && calls[c].outcome.Returned?
    requires exists v <- calls[c].outcome.values :: Reachable(x, v)
    ensures !x.Userdata? && !x.Coroutine? && !x.CFunction? && (x.Table? ==> x == Table(GlobalsOf(calls[c].thread)))
  {
    hide Copyable, CopyOf, Reachable;
    var vs, theirs := calls[c].outcome.values, calls[calls[c].peer.value].args;
    var v :| v in vs && Reachable(x, v);
    var k :| 0 <= k < |vs| && vs[k] == v;
    assert theirs[k] in theirs;
    CopyIsolated(theirs[k], GlobalsOf(calls[c].thread), x);
  }

  /**
   What a timed call hands to Lua when it exchanged normally: the last value of its own frame, and then
   the results.  So it starts with `true`, as it is meant to, exactly when that value, its own last
   argument or else its deadline, is `true`.
   */
  lemma TimedCallHands(run: seq<State>, i: nat, c: nat)
    requires Run(ASSUMED, run) && i < |run| && c < |run[i].calls|
    requires run[i].calls[c].outcome.Returned? && run[i].calls[c].kind == Timed
    ensures var call := run[i].calls[c];
            var n := |call.frame|;
            && n >= 3 && call.frame[1].Integer? && call.frame[2].Integer?
            && call.outcome.handed == [call.frame[n - 1]] + call.outcome.values
            && (call.outcome.handed == [Boolean(true)] + call.outcome.values <==>
                  n > 3 && call.frame[n - 1] == Boolean(true))
  {
    RunInv(run, i);
    AlwaysFramed(run, i, c);
    var call := run[i].calls[c];
    assert OutcomeOk(run[i].calls, c);
    assert call.outcome.handed[0] == call.frame[|call.frame| - 1];
    assert ([Boolean(true)] + call.outcome.values)[0] == Boolean(true);
  }

  /**
   Error symmetry.  Two partners of which either offered a non-copyable value both fail, each
   with a message; while the waiter is being signalled the slot is already empty.
   */
  lemma ErrorSymmetry(run: seq<State>, i: nat, c: nat)
    requires Run(ASSUMED, run) && i < |run| && c < |run[i].calls| && run[i].calls[c].peer.Some?
    ensures var calls := run[i].calls;
            var d := calls[c].peer.value;
            && d < |calls| && calls[d].peer == Some(c)
            && (calls[c].outcome.Failed? ==> calls[c].outcome.message.Str?)
            && (AllCopyable(calls[c].args) && AllCopyable(calls[d].args) ==>
                  !calls[c].outcome.Failed? && !calls[d].outcome.Failed?)
            && (!(AllCopyable(calls[c].args) && AllCopyable(calls[d].args)) ==>
                  !calls[c].outcome.Returned? && !calls[d].outcome.Returned?)
            && !calls[c].outcome.NoPartner? && !calls[d].outcome.NoPartner?
    ensures forall t | 0 <= t < |run[i].threads| && run[i].threads[t].pc == Signalling :: run[i].waiter == None
  {
    RunInv(run, i);
    var calls := run[i].calls;
    assert OutcomeOk(calls, c);
    assert OutcomeOk(calls, calls[c].peer.value);
  }

  /** A call that timed out was nobody's partner: no exchange is lost. */
  lemma TimeoutLosesNothing(run: seq<State>, i: nat, c: nat)
    requires Run(ASSUMED, run) && i < |run| && c < |run[i].calls| && run[i].calls[c].outcome.NoPartner?
    ensures run[i].calls[c].kind == Timed
    ensures forall e | 0 <= e < |run[i].calls| :: run[i].calls[e].peer != Some(c)
  {
    RunInv(run, i);
    assert OutcomeOk(run[i].calls, c);
  }

  /** The mutex holder is between the two operations that change slot and condition variable together. */
  predicate BetweenSlotAndSignal(s: State) {
    && s.mutex.Some? && s.mutex.value < |s.threads|
    && s.threads[s.mutex.value].pc in {Registered, TimedOut, Signalling}
  }

  /**
   Isolation of the slot.  At most one thread is blocked and unsignalled, and the slot names
   exactly the blocked thread unless the mutex holder is at one of three places, where it does not.
   */
  lemma SlotIsTheBlockedThread(run: seq<State>, i: nat)
    requires Run(ASSUMED, run) && i < |run|
    ensures var s := run[i];
            && (forall u, w | 0 <= u < |s.threads| && 0 <= w < |s.threads| ::
                  s.threads[u].pc == Blocked && s.threads[w].pc == Blocked ==> u == w)
            && (!BetweenSlotAndSignal(s) <==>
                  forall w | 0 <= w < |s.threads| :: s.waiter == Some(w) <==> s.threads[w].pc == Blocked)
  {
    RunInv(run, i);
    var s := run[i];
    hide Copies, AllCopyable, OnTop, Settled, Delivered, HasArgsAndCount, HasArgs, OutcomeOk;
    forall u, w | 0 <= u < |s.threads| && 0 <= w < |s.threads|
      ensures s.threads[u].pc == Blocked && s.threads[w].pc == Blocked ==> u == w
    {
      if s.threads[u].pc == Blocked && s.threads[w].pc == Blocked {
        OneBlocked(s, u, w);
      }
    }
    if BetweenSlotAndSignal(s) {
      var w := SlotAstray(s);
    } else {
      forall w | 0 <= w < |s.threads| ensures s.waiter == Some(w) <==> s.threads[w].pc == Blocked {
        assert ThreadOk(s, w);
      }
    }
  }

  /** At those places the slot names a thread that is not blocked, or misses the one that is. */
  lemma SlotAstray(s: State) returns (w: nat)
    requires Inv(s) && BetweenSlotAndSignal(s)
    ensures w < |s.threads| && !(s.waiter == Some(w) <==> s.threads[w].pc == Blocked)
  {
    hide Copies, AllCopyable, OnTop, Settled, Delivered, HasArgsAndCount, HasArgs, OutcomeOk, ThreadOk;
    var t := s.mutex.value;
    if s.threads[t].pc == Signalling {
      w := s.calls[s.calls[s.threads[t].call].peer.value].thread;
      assert Pair(s, t, w);
    } else {
      w := t;
    }
  }

  /**
   Isolation of the stacks.  A step of t changes another thread's Lua stack only while t holds
   the mutex and the other thread is the blocked one in the slot, and leaves it blocked.
   */
  lemma ForeignStack(run: seq<State>, i: nat, s': State, t: nat, u: nat)
    requires Run(ASSUMED, run) && i < |run| && t < |run[i].threads| && Step(ASSUMED, run[i], s', t)
    requires u < |run[i].threads| && u != t
    ensures |s'.threads| == |run[i].threads|
    ensures s'.threads[u].stack != run[i].threads[u].stack ==>
              && run[i].mutex == Some(t) && run[i].waiter == Some(u)
              && run[i].threads[u].pc == Blocked && s'.threads[u].pc == Blocked
  {
    hide Inv, Meets;
    RunInv(run, i);
    if Meets(run[i], s', t) {
      MeetsTouches(run[i], s', t, u);
    }
  }

  /** A step of the exchange works on two stacks only, and moves only t's program counter. */
  lemma MeetsFrame(s: State, s': State, t: nat, w: nat)
    requires t < |s.threads| && w < |s.threads| && MeetsWith(s, s', t, w)
    ensures s.waiter == Some(w) && s.threads[t].pc in {Counting, CopyingIn, CopyingOut}
    ensures |s'.threads| == |s.threads| && s'.threads[w].pc == s.threads[w].pc
    ensures forall u | 0 <= u < |s.threads| && u != t && u != w :: s'.threads[u] == s.threads[u]
  {
    hide CopyOutcome;
  }

  lemma MeetsTouches(s: State, s': State, t: nat, u: nat)
    requires Inv(s) && t < |s.threads| && u < |s.threads| && u != t && Meets(s, s', t)
    ensures |s'.threads| == |s.threads|
    ensures s'.threads[u].stack != s.threads[u].stack ==>
              && s.mutex == Some(t) && s.waiter == Some(u)
              && s.threads[u].pc == Blocked && s'.threads[u].pc == Blocked
  {
    hide Inv, MeetsWith;
    var w: nat :| w < |s.threads| && MeetsWith(s, s', t, w);
    MeetsFrame(s, s', t, w);
    if s.threads[t].pc == Counting {
      UnboundWaiter(s, t, w);
    } else {
      PartnerInSlot(s, t, w);
    }
  }

  /** No step of the exchange ever finds the stacks in a shape it cannot handle. */
  lemma AccessesDefined(run: seq<State>, i: nat, t: nat)
    requires Run(ASSUMED, run) && i < |run| && t < |run[i].threads|
    ensures var s, th := run[i], run[i].threads[t];
            && (th.pc in {Counting, CopyingIn, CopyingOut} ==>
                  s.waiter.Some? && s.waiter.value < |s.threads| && s.waiter.value != t)
            && (th.pc == Counting ==> Waiting(s.threads[s.waiter.value].stack))
            && (th.pc == CopyingIn ==> 0 <= th.nres <= |s.threads[s.waiter.value].stack|)
            && (th.pc == CopyingOut ==> Base(th.kind) + th.narg <= |th.stack|)
            && (th.pc == Resumed ==> |th.stack| > 0 && th.stack[|th.stack| - 1].Integer?)
            && (th.pc == Returning ==> |th.stack| > 0 && HandedCount(th.kind, th.nres) <= |th.stack|)
  {
    RunInv(run, i);
    var s, th := run[i], run[i].threads[t];
    hide Inv, Run;
    match th.pc {
      case Counting => CountingDefined(s, t);
      case CopyingIn => CopyInStarts(s, t, s.waiter.value);
      case CopyingOut => CopyingOutDefined(s, t);
      case Resumed => ResumedDefined(s, t);
      case Returning => ReturningDefined(s, t);
      case _ =>
    }
  }

  lemma CountingDefined(s: State, t: nat)
    requires Inv(s) && t < |s.threads| && s.threads[t].pc == Counting
    ensures s.waiter.Some? && s.waiter.value < |s.threads| && s.waiter.value != t
    ensures Waiting(s.threads[s.waiter.value].stack)
  {
    hide Copies, AllCopyable, OnTop, Settled, Delivered, OutcomeOk;
    UnboundWaiter(s, t, s.waiter.value);
    assert ThreadOk(s, s.waiter.value);
    hide CallsOk, SlotOk, PartnersOk, PeersOk;
  }

  lemma CopyingOutDefined(s: State, t: nat)
    requires Inv(s) && t < |s.threads| && s.threads[t].pc == CopyingOut
    ensures s.waiter.Some? && s.waiter.value < |s.threads| && s.waiter.value != t
    ensures Base(s.threads[t].kind) + s.threads[t].narg <= |s.threads[t].stack|
  {
    hide Copies, AllCopyable, OnTop, Settled, Delivered, OutcomeOk, HasArgs;
    PartnerInSlot(s, t, s.waiter.value);
    assert ThreadOk(s, t);
    hide SlotOk, PartnersOk, PeersOk;
  }

  lemma ResumedDefined(s: State, t: nat)
    requires Inv(s) && t < |s.threads| && s.threads[t].pc == Resumed
    ensures |s.threads[t].stack| > 0 && s.threads[t].stack[|s.threads[t].stack| - 1].Integer?
  {
    hide Copies, AllCopyable, OnTop, Settled, OutcomeOk, HasArgs;
    assert ThreadOk(s, t);
  }

  lemma ReturningDefined(s: State, t: nat)
    requires Inv(s) && t < |s.threads| && s.threads[t].pc == Returning
    ensures |s.threads[t].stack| > 0 && HandedCount(s.threads[t].kind, s.threads[t].nres) <= |s.threads[t].stack|
  {
    hide Copies, AllCopyable, OnTop, OutcomeOk;
    assert ThreadOk(s, t);
    hide SlotOk, PartnersOk, PeersOk;
  }

  /** Copying in, then out, is an exchange. */
  lemma CopiesMakeExchange(own: seq<Value>, other: seq<Value>, idx: nat, narg: nat, g: nat, h: nat,
                           own': seq<Value>, theirs': seq<Value>, r: int, m: Value,
                           own'': seq<Value>, theirs'': seq<Value>, r': int, m': Value)
    requires Waiting(other) && 1 <= idx && idx + narg - 1 <= |own| && m.Str? && m'.Str?
    requires var rest, n := other[..|other| - 1], |Offered(other)|;
             CopyOutcome(rest, own, |rest| - n + 1, n, g, theirs', own', r)
    requires r == 0 ==> idx + narg - 1 <= |own'|
    requires r == 0 ==> CopyOutcome(own', theirs', idx, narg, h, own'', theirs'', r')
    ensures r != 0 ==> Exchanged(own, other, idx, narg, g, h, own' + [m], theirs' + [m, Integer(-1)], -1)
    ensures r == 0 && r' != 0 ==>
              Exchanged(own, other, idx, narg, g, h, own'' + [m'], theirs'' + [m', Integer(-1)], -1)
    ensures r == 0 && r' == 0 ==>
              Exchanged(own, other, idx, narg, g, h, own'', theirs'' + [Integer(narg)], |Offered(other)|)
  {
    hide Copyable, CopyOf, AllCopyable;
    var rest, n := other[..|other| - 1], |Offered(other)|;
    assert Window(rest, |rest| - n + 1, n) == Offered(other);
    if r == 0 {
      assert Window(own', idx, narg) == own[idx - 1..idx - 1 + narg];
    }
  }

  lemma ArgumentsThere(s: State, t: nat)
    requires Inv(s) && t < |s.threads| && s.threads[t].pc == Counting
    ensures Base(s.threads[t].kind) + s.threads[t].narg <= |s.threads[t].stack|
  {
    hide Copies, AllCopyable, OnTop, Settled, Delivered, OutcomeOk;
    assert ThreadOk(s, t);
    hide SlotOk, PartnersOk, PeersOk;
  }

  /** The three steps of the protocol add up to what the `Exchange` method does. */
  lemma StepsMakeExchange(s0: State, s1: State, s2: State, s3: State, t: nat, w: nat,
                          own: seq<Value>, theirs: seq<Value>, r: int, m: Value,
                          own': seq<Value>, theirs': seq<Value>, r': int, m': Value)
    requires Inv(s0) && t < |s0.threads| && w < |s0.threads|
    requires TakeCount(s0, s1, t, w) && CopyIn(s1, s2, t, w, own, theirs, r, m)
    requires if r == 0 then CopyOut(s2, s3, t, w, own', theirs', r', m') else s3 == s2
    ensures var a, b := s0.threads[t], s0.threads[w];
            && Waiting(b.stack) && Base(a.kind) + a.narg <= |a.stack|
            && Exchanged(a.stack, b.stack, Base(a.kind) + 1, a.narg, GlobalsOf(t), GlobalsOf(w),
                         s3.threads[t].stack, s3.threads[w].stack, s3.threads[t].nres)
  {
    hide Copyable, CopyOf, Copies, AllCopyable, CopyOutcome, Exchanged, Inv;
    CountingDefined(s0, t);
    ArgumentsThere(s0, t);
    UnboundWaiter(s0, t, w);
    var a, b := s0.threads[t], s0.threads[w];
    CopiesMakeExchange(a.stack, b.stack, Base(a.kind) + 1, a.narg, GlobalsOf(t), GlobalsOf(w),
                       own, theirs, r, m, own', theirs', r', if r == 0 then m' else m);
  }

  // --- the assumptions are needed ---

  lemma Extend(env: Environment, run: seq<State>, s': State, t: nat) returns (run': seq<State>)
    requires Run(env, run)
    requires t < |run[|run| - 1].threads| && Step(env, run[|run| - 1], s', t)
    ensures run' == run + [s'] && Run(env, run')
  {
    hide Step;
    assert Next(env, run[|run| - 1], s');
    run' := run + [s'];
  }

  /** The run below, state by state: one thread, one call offering the value 5. */
  function SpuriousState(k: nat): State {
    var th := Thread(Idle, Plain, 1, 0, [Userdata(9), Integer(5)], 0);
    var counted := th.(stack := th.stack + [Integer(1)]);
    var call := Call(0, Plain, th.stack, [Integer(5)], None, Running);
    match k
    case 0 => State([th], None, None, [])
    case 1 => State([th.(pc := Locking)], None, None, [call])
    case 2 => State([th.(pc := Testing)], Some(0), None, [call])
    case 3 => State([counted.(pc := Registered)], Some(0), Some(0), [call])
    case 4 => State([counted.(pc := Blocked)], None, Some(0), [call])
    case 5 => State([counted.(pc := Woken)], None, Some(0), [call])
    case 6 => State([counted.(pc := Resumed)], Some(0), Some(0), [call])
    case 7 => State([th.(pc := Unlocking, nres := 1)], Some(0), Some(0), [call])
    case 8 => State([th.(pc := Returning, nres := 1)], None, Some(0), [call])
    case _ => State([th.(nres := 1)], None, Some(0), [call.(outcome := Returned(call.args, call.args))])
  }

  lemma SpuriousStepToBlocked(k: nat)
    requires k < 4
    ensures Step(Environment(true, false), SpuriousState(k), SpuriousState(k + 1), 0)
  {
    var s, s' := SpuriousState(k), SpuriousState(k + 1);
    match k {
      case 0 =>
        var frame := s.threads[0].stack;
        assert frame[1..] == [Integer(5)] && Begin(s, s', 0, Plain, frame);
      case 1 => assert Lock(s, s', 0);
      case 2 => assert Register(s, s', 0);
      case 3 => assert Sleep(s, s', 0);
    }
  }

  lemma SpuriousStepToReturn(k: nat)
    requires 4 <= k < 9
    ensures Step(Environment(true, false), SpuriousState(k), SpuriousState(k + 1), 0)
  {
    var s, s' := SpuriousState(k), SpuriousState(k + 1);
    match k {
      case 4 => assert SpuriousWakeup(s, s', 0);
      case 5 => assert Reacquire(s, s', 0);
      case 6 => assert ReadCount(s, s', 0);
      case 7 => assert Unlock(s, s', 0);
      case 8 => assert Return(s, s', 0);
    }
  }

  lemma {:induction false} SpuriousRun(k: nat) returns (run: seq<State>)
    requires k <= 9
    ensures Run(Environment(true, false), run) && run[|run| - 1] == SpuriousState(k)
  {
    if k == 0 {
      run := [SpuriousState(0)];
    } else {
      run := SpuriousRun(k - 1);
      hide Step;
      if k <= 4 {
        SpuriousStepToBlocked(k - 1);
      } else {
        SpuriousStepToReturn(k - 1);
      }
      run := Extend(Environment(true, false), run, SpuriousState(k), 0);
    }
  }

  /**
   With spurious wakeups, a call can return its own arguments without ever having met anybody,
   and leave the slot naming a thread that is gone.
   */
  lemma SpuriousWakeupBreaksPairing()
    ensures exists run: seq<State> ::
              && Run(Environment(true, false), run)
              && var s := run[|run| - 1];
              && |s.calls| == 1 && s.calls[0].peer == None && |s.threads| == 1
              && s.calls[0].outcome == Returned(s.calls[0].args, s.calls[0].args) && s.calls[0].args != []
              && s.waiter == Some(0) && s.threads[0].pc == Idle
  {
    var run := SpuriousRun(9);
  }

  /** A timed waiter that times out while its partner is already at work on its stack. */
  function LateState(k: nat): State {
    var w := Thread(Idle, Timed, 0, 0, [Userdata(9), Integer(0), Integer(0)], 0);
    var counted := w.(stack := w.stack + [Integer(0)]);
    var a := Thread(Idle, Plain, 0, 0, [Userdata(9)], 1);
    var late, call := Call(0, Timed, w.stack, [], None, Running), Call(1, Plain, a.stack, [], None, Running);
    var before, after := [late, call], [late.(peer := Some(1)), call.(peer := Some(0))];
    var finished := [after[0], after[1].(outcome := Returned([], []))];
    match k
    case 0 => State([w, a], None, None, [])
    case 1 => State([w.(pc := Locking), a], None, None, [late])
    case 2 => State([w.(pc := Testing), a], Some(0), None, [late])
    case 3 => State([counted.(pc := Registered), a], Some(0), Some(0), [late])
    case 4 => State([counted.(pc := Blocked), a], None, Some(0), [late])
    case 5 => State([counted.(pc := Expired), a], None, Some(0), [late])
    case 6 => State([counted.(pc := Expired), a.(pc := Locking)], None, Some(0), before)
    case 7 => State([counted.(pc := Expired), a.(pc := Testing)], Some(1), Some(0), before)
    case 8 => State([counted.(pc := Expired), a.(pc := Counting)], Some(1), Some(0), before)
    case 9 => State([w.(pc := Expired), a.(pc := CopyingIn)], Some(1), Some(0), after)
    case 10 => State([w.(pc := Expired), a.(pc := CopyingOut)], Some(1), Some(0), after)
    case 11 => State([counted.(pc := Expired), a.(pc := Clearing)], Some(1), Some(0), after)
    case 12 => State([counted.(pc := Expired), a.(pc := Signalling)], Some(1), None, after)
    case 13 => State([counted.(pc := Expired), a.(pc := Unlocking)], Some(1), None, after)
    case 14 => State([counted.(pc := Expired), a.(pc := Returning)], None, None, after)
    case 15 => State([counted.(pc := Expired), a], None, None, finished)
    case 16 => State([counted.(pc := TimedOut), a], Some(0), None, finished)
    case 17 => State([counted.(pc := Unlocking, nres := -2), a], Some(0), None, finished)
    case 18 => State([counted.(pc := Returning, nres := -2), a], None, None, finished)
    case _ => State([counted.(nres := -2), a], None, None, [finished[0].(outcome := NoPartner), finished[1]])
  }

  lemma LateThreads(k: nat)
    ensures |LateState(k).threads| == 2
  {
  }

  function LateThread(k: nat): nat {
    if 5 <= k <= 14 then 1 else 0
  }

  lemma LateStepFirst(k: nat)
    requires k < 5
    ensures Step(Environment(false, true), LateState(k), LateState(k + 1), 0)
  {
    var s, s' := LateState(k), LateState(k + 1);
    match k {
      case 0 =>
        var frame := s.threads[0].stack;
        assert frame[3..] == [] && Begin(s, s', 0, Timed, frame);
      case 1 => assert Lock(s, s', 0);
      case 2 => assert Register(s, s', 0);
      case 3 => assert Sleep(s, s', 0);
      case 4 => assert Expire(s, s', 0);
    }
  }

  lemma LateStepBefore(k: nat)
    requires 5 <= k < 9
    ensures Step(Environment(false, true), LateState(k), LateState(k + 1), 1)
  {
    var s, s' := LateState(k), LateState(k + 1);
    match k {
      case 5 =>
        var frame := s.threads[1].stack;
        assert frame[1..] == [] && Begin(s, s', 1, Plain, frame);
      case 6 => assert Lock(s, s', 1);
      case 7 => assert FindWaiter(s, s', 1);
      case 8 =>
        assert TakeCount(s, s', 1, 0);
        assert MeetsWith(s, s', 1, 0);
    }
  }

  lemma SignalNobody(s: State, s': State, t: nat)
    requires t < |s.threads| && s.threads[t].pc == Signalling
    requires forall u | 0 <= u < |s.threads| :: s.threads[u].pc != Blocked
    requires s' == With(s, t, s.threads[t].(pc := Unlocking))
    ensures Signal(s, s', t, {})
  {
    assert s'.threads == Signalled(s.threads, t, {});
  }

  lemma LateStepMeeting(k: nat)
    requires 9 <= k < 11
    ensures Step(Environment(false, true), LateState(k), LateState(k + 1), 1)
  {
    var s, s' := LateState(k), LateState(k + 1);
    var a, w := s.threads[1].stack, s.threads[0].stack;
    if k == 9 {
      assert CopyIn(s, s', 1, 0, a, w, 0, Str(""));
    } else {
      assert CopyOut(s, s', 1, 0, a, w, 0, Str(""));
    }
    assert MeetsWith(s, s', 1, 0);
  }

  lemma LateStepAfter(k: nat)
    requires 11 <= k < 15
    ensures Step(Environment(false, true), LateState(k), LateState(k + 1), 1)
  {
    var s, s' := LateState(k), LateState(k + 1);
    match k {
      case 11 => assert Clear(s, s', 1);
      case 12 =>
        SignalNobody(s, s', 1);
      case 13 => assert Unlock(s, s', 1);
      case 14 =>
        assert s.threads[1].stack[1..] == [];
        assert Return(s, s', 1);
    }
  }

  lemma LateStepLast(k: nat)
    requires 15 <= k < 19
    ensures Step(Environment(false, true), LateState(k), LateState(k + 1), 0)
  {
    var s, s' := LateState(k), LateState(k + 1);
    match k {
      case 15 => assert ReacquireLate(s, s', 0);
      case 16 => assert Withdraw(s, s', 0);
      case 17 => assert Unlock(s, s', 0);
      case 18 => assert Return(s, s', 0);
    }
  }

  lemma {:induction false} LateRun(k: nat) returns (run: seq<State>)
    requires k <= 19
    ensures Run(Environment(false, true), run) && run[|run| - 1] == LateState(k)
  {
    if k == 0 {
      run := [LateState(0)];
    } else {
      run := LateRun(k - 1);
      hide Step, LateState;
      if k <= 5 {
        LateStepFirst(k - 1);
      } else if k <= 9 {
        LateStepBefore(k - 1);
      } else if k <= 11 {
        LateStepMeeting(k - 1);
      } else if k > 15 {
        LateStepLast(k - 1);
      } else {
        LateStepAfter(k - 1);
      }
      LateThreads(k - 1);
      run := Extend(Environment(false, true), run, LateState(k), LateThread(k - 1));
    }
  }

  /** With late timeouts, one side of an exchange can return normally while the other reports a timeout. */
  lemma LateTimeoutBreaksPairing()
    ensures exists run: seq<State> ::
              && Run(Environment(false, true), run)
              && var calls := run[|run| - 1].calls;
              && |calls| == 2 && calls[0].peer == Some(1) && calls[1].peer == Some(0)
              && calls[1].outcome.Returned? && calls[0].outcome == NoPartner
  {
    hide Next, LateState;
    var run := LateRun(19);
    assert |run| > 0;
    hide Run;
    LateEnd();
  }

  lemma LateEnd()
    ensures var calls := LateState(19).calls;
            && |calls| == 2 && calls[0].peer == Some(1) && calls[1].peer == Some(0)
            && calls[1].outcome.Returned? && calls[0].outcome == NoPartner
  {
  }
}
