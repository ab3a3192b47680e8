/** No wakeup is lost: where the rendezvous can stand still, and nowhere else. */
module RendezvousProgress {
  import opened Wrappers
  import opened Lua
  import opened DeepCopy
  import opened Exchange
  import opened Rendezvous
  import opened RendezvousProof
  import opened TimedResults

  /** Thread t is inside a call and can take a step. */
  ghost predicate CanStep(s: State, t: nat) {
    t < |s.threads| && s.threads[t].pc != Idle && exists s' :: Step(ASSUMED, s, s', t)
  }

  /** The only call in progress is an untimed one that found nobody and waits in the slot. */
  predicate WaitsAlone(s: State, w: nat) {
    && w < |s.threads| && s.threads[w].pc == Blocked && s.threads[w].kind == Plain
    && s.waiter == Some(w) && s.mutex == None
    && s.threads[w].call < |s.calls| && s.calls[s.threads[w].call].peer == None
    && forall u | 0 <= u < |s.threads| && u != w :: s.threads[u].pc == Idle
  }

  predicate AllIdle(s: State) {
    forall u | 0 <= u < |s.threads| :: s.threads[u].pc == Idle
  }

  // --- a copy always has an outcome ---

  lemma {:induction false} FirstRefused(w: seq<Value>) returns (k: nat)
    requires !AllCopyable(w)
    ensures k < |w| && !Copyable(w[k]) && AllCopyable(w[..k])
  {
    hide Copyable;
    var n := |w| - 1;
    if AllCopyable(w[..n]) {
      k := n;
      assert w == w[..n] + [w[n]];
    } else {
      k := FirstRefused(w[..n]);
      assert w[..n][..k] == w[..k];
    }
  }

  lemma CopyEnds(src: seq<Value>, dst: seq<Value>, idx: int, n: nat, g: nat)
    returns (src': seq<Value>, dst': seq<Value>, r: int)
    requires idx >= 1 && ValidWindow(|src|, idx, n)
    ensures CopyOutcome(src, dst, idx, n, g, src', dst', r)
  {
    var w := Window(src, idx, n);
    if AllCopyable(w) {
      CopiedAll(src, dst, idx, n, g);
      return src, dst + Copies(w, g), 0;
    }
    var k := FirstRefused(w);
    StopsAt(src, dst, idx, n, g, src, dst + Copies(w[..k], g), idx + k);
    return src, dst + Copies(w[..k], g), idx + k;
  }

  // --- the mutex holder ---

  lemma CountingSteps(s: State, t: nat) returns (s': State)
    requires Inv(s) && t < |s.threads| && s.threads[t].pc == Counting
    ensures Meets(s, s', t)
  {
    hide Copyable, CopyOf, Copies, AllCopyable, OnTop, Settled, Delivered, OutcomeOk;
    var w := s.waiter.value;
    UnboundWaiter(s, t, w);
    assert ThreadOk(s, w);
    var th, wh := s.threads[t], s.threads[w];
    s' := State(
      s.threads[t := th.(pc := CopyingIn, nres := wh.stack[|wh.stack| - 1].i)]
               [w := wh.(stack := wh.stack[..|wh.stack| - 1])],
      s.mutex, s.waiter,
      s.calls[th.call := s.calls[th.call].(peer := Some(wh.call))]
             [wh.call := s.calls[wh.call].(peer := Some(th.call))]);
    assert TakeCount(s, s', t, w);
    assert MeetsWith(s, s', t, w);
  }

  lemma CopyingInSteps(s: State, t: nat) returns (s': State)
    requires Inv(s) && t < |s.threads| && s.threads[t].pc == CopyingIn
    ensures Meets(s, s', t)
  {
    hide Copyable, CopyOf, Copies, AllCopyable, OnTop, Settled, Delivered, OutcomeOk, CopyOutcome;
    var w := s.waiter.value;
    CopyInStarts(s, t, w);
    hide Inv;
    var th, wh := s.threads[t], s.threads[w];
    var theirs, own, r := CopyEnds(wh.stack, th.stack, |wh.stack| - th.nres + 1, th.nres, GlobalsOf(t));
    var m := Str("");
    s' := s.(threads := if r == 0 then
      s.threads[t := th.(pc := CopyingOut, stack := own)][w := wh.(stack := theirs)]
    else
      s.threads[t := th.(pc := Clearing, nres := -1, stack := own + [m])]
               [w := wh.(stack := theirs + [m, Integer(-1)])]);
    assert CopyIn(s, s', t, w, own, theirs, r, m);
    assert MeetsWith(s, s', t, w);
  }

  lemma CopyingOutSteps(s: State, t: nat) returns (s': State)
    requires Inv(s) && t < |s.threads| && s.threads[t].pc == CopyingOut
    ensures Meets(s, s', t)
  {
    hide Copyable, CopyOf, Copies, AllCopyable, OnTop, Settled, Delivered, OutcomeOk, CopyOutcome, HasArgs;
    var w := s.waiter.value;
    PartnerInSlot(s, t, w);
    assert ThreadOk(s, t);
    hide Inv;
    var th, wh := s.threads[t], s.threads[w];
    var own, theirs, r := CopyEnds(th.stack, wh.stack, Base(th.kind) + 1, th.narg, GlobalsOf(w));
    var m := Str("");
    s' := s.(threads := if r == 0 then
      s.threads[t := th.(pc := Clearing, stack := own)][w := wh.(stack := theirs + [Integer(th.narg)])]
    else
      s.threads[t := th.(pc := Clearing, nres := -1, stack := own + [m])]
               [w := wh.(stack := theirs + [m, Integer(-1)])]);
    assert CopyOut(s, s', t, w, own, theirs, r, m);
    assert MeetsWith(s, s', t, w);
  }

  /** A signal finds the partner. */
  lemma SignallingSteps(s: State, t: nat) returns (s': State, woken: set<nat>)
    requires Inv(s) && t < |s.threads| && s.threads[t].pc == Signalling
    ensures Signal(s, s', t, woken)
  {
    hide Copies, AllCopyable, OnTop, Settled, Delivered, HasArgsAndCount, HasArgs, OutcomeOk, ThreadOk;
    var w := s.calls[s.calls[s.threads[t].call].peer.value].thread;
    assert Pair(s, t, w);
    woken := {w};
    s' := s.(threads := Signalled(s.threads, t, woken));
  }

  /** Whoever holds the mutex can go on. */
  lemma HolderSteps(s: State, t: nat)
    requires Inv(s) && s.mutex == Some(t)
    ensures CanStep(s, t)
  {
    hide Copyable, CopyOf, Copies, AllCopyable, OnTop, OutcomeOk, Meets, Signal;
    assert HoldsMutex(s.threads[t].pc) && ThreadOk(s, t);
    var th := s.threads[t];
    match th.pc {
      case Testing =>
        if s.waiter == None {
          var s' := With(s, t, th.(pc := Registered, stack := th.stack + [Integer(th.narg)])).(waiter := Some(t));
          assert Register(s, s', t) && Step(ASSUMED, s, s', t);
        } else {
          var s' := With(s, t, th.(pc := Counting));
          assert FindWaiter(s, s', t) && Step(ASSUMED, s, s', t);
        }
      case Registered =>
        var s' := With(s, t, th.(pc := Blocked)).(mutex := None);
        assert Sleep(s, s', t) && Step(ASSUMED, s, s', t);
      case Resumed =>
        var n := |th.stack| - 1;
        var s' := With(s, t, th.(pc := Unlocking, nres := th.stack[n].i, stack := th.stack[..n]));
        assert ReadCount(s, s', t) && Step(ASSUMED, s, s', t);
      case TimedOut =>
        var s' := With(s, t, th.(pc := Unlocking, nres := -2)).(waiter := None);
        assert Withdraw(s, s', t) && Step(ASSUMED, s, s', t);
      case Counting =>
        var s' := CountingSteps(s, t);
        assert Step(ASSUMED, s, s', t);
      case CopyingIn =>
        var s' := CopyingInSteps(s, t);
        assert Step(ASSUMED, s, s', t);
      case CopyingOut =>
        var s' := CopyingOutSteps(s, t);
        assert Step(ASSUMED, s, s', t);
      case Clearing =>
        var s' := With(s, t, th.(pc := Signalling)).(waiter := None);
        assert Clear(s, s', t) && Step(ASSUMED, s, s', t);
      case Signalling =>
        var s', woken := SignallingSteps(s, t);
        assert Step(ASSUMED, s, s', t);
      case Unlocking =>
        var s' := With(s, t, th.(pc := Returning)).(mutex := None);
        assert Unlock(s, s', t) && Step(ASSUMED, s, s', t);
      case _ =>
    }
  }

  // --- nobody holds it ---

  lemma ReturningSteps(s: State, t: nat) returns (s': State)
    requires Inv(s) && t < |s.threads| && s.threads[t].pc == Returning
    ensures Return(s, s', t)
  {
    hide Copyable, CopyOf, Copies, AllCopyable, OutcomeOk;
    assert ThreadOk(s, t);
    var th := s.threads[t];
    var outcome :=
      if th.nres >= 0 then Returned(Handed(th.stack, th.nres), Handed(th.stack, HandedCount(th.kind, th.nres)))
      else if th.nres == -1 then Failed(th.stack[|th.stack| - 1])
      else NoPartner;
    s' := With(s, t, th.(pc := Idle)).(calls := s.calls[th.call := s.calls[th.call].(outcome := outcome)]);
  }

  /** Then any thread inside a call can go on, unless it is an untimed one blocked in the slot. */
  lemma FreeMutexSteps(s: State, t: nat)
    requires Inv(s) && s.mutex == None && t < |s.threads| && s.threads[t].pc != Idle
    ensures CanStep(s, t) || (s.threads[t].pc == Blocked && s.threads[t].kind == Plain)
    ensures s.threads[t].pc == Blocked ==>
              s.waiter == Some(t) && s.threads[t].call < |s.calls| && s.calls[s.threads[t].call].peer == None
  {
    hide Copyable, CopyOf, Copies, AllCopyable, OnTop, OutcomeOk, Settled, Delivered, Return;
    assert !HoldsMutex(s.threads[t].pc) && ThreadOk(s, t);
    var th := s.threads[t];
    match th.pc {
      case Locking =>
        var s' := With(s, t, th.(pc := Testing)).(mutex := Some(t));
        assert Lock(s, s', t) && Step(ASSUMED, s, s', t);
      case Woken =>
        var s' := With(s, t, th.(pc := Resumed)).(mutex := Some(t));
        assert Reacquire(s, s', t) && Step(ASSUMED, s, s', t);
      case Returning =>
        var s' := ReturningSteps(s, t);
        assert Step(ASSUMED, s, s', t);
      case Blocked =>
        var s' := With(s, t, th.(pc := TimedOut)).(mutex := Some(t));
        if th.kind == Timed {
          assert Timeout(s, s', t) && Step(ASSUMED, s, s', t);
        }
      case _ =>
    }
  }

  /** The mutex is what most calls that cannot go on are waiting for. */
  lemma CannotStep(s: State, t: nat)
    requires Inv(s) && t < |s.threads| && s.mutex != Some(t)
    requires match s.threads[t].pc
             case Idle => true
             case Locking => s.mutex.Some? && s.threads[t].kind == Plain
             case Woken => s.mutex.Some?
             case Blocked => s.mutex.Some? || s.threads[t].kind == Plain
             case _ => false
    ensures !CanStep(s, t)
  {
    hide Copyable, CopyOf, Copies, AllCopyable, OnTop, OutcomeOk, Settled, Delivered, CopyOutcome;
    forall s' ensures s.threads[t].pc != Idle ==> !Step(ASSUMED, s, s', t) {
      assert forall w: nat | w < |s.threads| :: !MeetsWith(s, s', t, w);
    }
  }

  /**
   Which calls can go on, in every reachable state: whoever holds the mutex or has unlocked it; who is
   about to lock or relock it, if it is free; a timed call that is about to lock it, in any case; and
   a timed call that waits, if the mutex is free.
   */
  lemma WhoCanStep(run: seq<State>, i: nat, t: nat)
    requires Run(ASSUMED, run) && i < |run| && t < |run[i].threads|
    ensures var s, th := run[i], run[i].threads[t];
            CanStep(s, t) <==>
              || s.mutex == Some(t)
              || th.pc == Returning
              || (th.pc == Locking && (s.mutex == None || th.kind == Timed))
              || (th.pc == Woken && s.mutex == None)
              || (th.pc == Blocked && th.kind == Timed && s.mutex == None)
  {
    RunInv(run, i);
    var s, th := run[i], run[i].threads[t];
    hide Run, CanStep;
    assert SlotOk(s) by { hide CallsOk, PeersOk, PartnersOk, ThreadOk, OutcomeOk; }
    hide CallsOk, PeersOk, PartnersOk, ThreadOk, OutcomeOk;
    if s.mutex == Some(t) {
      HolderSteps(s, t);
    } else if s.mutex == None && th.pc !in {Idle, Blocked} {
      FreeMutexSteps(s, t);
    } else if s.mutex == None && th.pc == Blocked && th.kind == Timed {
      FreeMutexSteps(s, t);
    } else if th.pc == Returning || (th.pc == Locking && th.kind == Timed) {
      UnlockedSteps(s, t);
    } else {
      CannotStep(s, t);
    }
  }

  /** What needs no mutex: giving up on it, and returning. */
  lemma UnlockedSteps(s: State, t: nat)
    requires Inv(s) && t < |s.threads|
    requires s.threads[t].pc == Returning || (s.threads[t].pc == Locking && s.threads[t].kind == Timed)
    ensures CanStep(s, t)
  {
    if s.threads[t].pc == Returning {
      var s' := ReturningSteps(s, t);
      hide Inv, Return;
      assert Step(ASSUMED, s, s', t);
    } else {
      hide Inv;
      var s' := With(s, t, s.threads[t].(pc := Returning, nres := -2));
      assert LockTimeout(s, s', t) && Step(ASSUMED, s, s', t);
    }
  }

  /** A thread that waits alone cannot go on by itself. */
  lemma AloneIsStuck(s: State, w: nat)
    requires WaitsAlone(s, w)
    ensures forall t :: !CanStep(s, t)
  {
    forall s' ensures !Step(ASSUMED, s, s', w) {
      assert forall v: nat | v < |s.threads| :: !MeetsWith(s, s', w, v);
    }
  }

  lemma SomebodySteps(s: State)
    requires Inv(s)
    ensures AllIdle(s) || (exists w :: WaitsAlone(s, w)) || (exists t :: CanStep(s, t))
  {
    if s.mutex.Some? {
      HolderSteps(s, s.mutex.value);
    } else if !AllIdle(s) {
      var t: nat :| t < |s.threads| && s.threads[t].pc != Idle;
      FreeMutexSteps(s, t);
      if !CanStep(s, t) {
        if u: nat :| u < |s.threads| && u != t && s.threads[u].pc != Idle {
          FreeMutexSteps(s, u);
          assert s.waiter == Some(t);
          assert CanStep(s, u);
        } else {
          assert WaitsAlone(s, t);
        }
      }
    }
  }

  /**
   Progress.  In every reachable state some call in progress can go on, except exactly when there is
   none, or the only one is an untimed call that found no partner and waits for one.
   */
  lemma NoLostWakeup(run: seq<State>, i: nat)
    requires Run(ASSUMED, run) && i < |run|
    ensures (forall t :: !CanStep(run[i], t)) <==> AllIdle(run[i]) || exists w :: WaitsAlone(run[i], w)
  {
    RunInv(run, i);
    hide Inv, Run, CanStep;
    SomebodySteps(run[i]);
    if w :| WaitsAlone(run[i], w) {
      AloneIsStuck(run[i], w);
    } else if AllIdle(run[i]) {
      NobodyInside(run[i]);
    }
  }

  lemma NobodyInside(s: State)
    requires AllIdle(s)
    ensures forall t :: !CanStep(s, t)
  {
  }
}
