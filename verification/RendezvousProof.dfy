/** The rendezvous invariant, step by step. */
module RendezvousProof {
  import opened Wrappers
  import opened Lua
  import opened DeepCopy
  import opened Exchange
  import opened Rendezvous
  import opened TimedResults

  lemma InitInv(s: State)
    requires Init(s)
    ensures Inv(s)
  {
  }

  lemma SettledFrame(calls: seq<Call>, calls': seq<Call>, c: nat, stack: seq<Value>, nres: int)
    requires SameArgs(calls, calls') && c < |calls| && calls'[c].peer == calls[c].peer
    requires Settled(calls, c, stack, nres)
    ensures Settled(calls', c, stack, nres)
  {
    hide Copies, AllCopyable, OnTop;
  }

  lemma DeliveredFrame(calls: seq<Call>, calls': seq<Call>, c: nat, stack: seq<Value>)
    requires SameArgs(calls, calls') && c < |calls| && calls'[c].peer == calls[c].peer
    requires Delivered(calls, c, stack)
    ensures Delivered(calls', c, stack)
  {
    hide Settled;
    SettledFrame(calls, calls', c, stack[..|stack| - 1], stack[|stack| - 1].i);
  }

  /** A quiet step leaves every other thread as it was. */
  lemma OtherThreadOk(s: State, s': State, t: nat, u: nat)
    requires CallsOk(s) && CallsOk(s') && Quiet(s, s', t)
    requires u < |s.threads| && u != t && s.threads[u].pc != Blocked
    requires ThreadOk(s, u)
    ensures ThreadOk(s', u)
  {
    hide Copies, AllCopyable, OnTop, HasArgs, Settled, Delivered;
    var th := s.threads[u];
    if th.pc in {Woken, Resumed} {
      DeliveredFrame(s.calls, s'.calls, th.call, th.stack);
    } else if th.pc in {Clearing, Signalling, Unlocking, Returning} {
      SettledFrame(s.calls, s'.calls, th.call, th.stack, th.nres);
    }
  }

  lemma OtherBlockedOk(s: State, s': State, t: nat, u: nat)
    requires CallsOk(s) && CallsOk(s') && Quiet(s, s', t) && SlotOk(s)
    requires u < |s.threads| && u != t && s.threads[u].pc == Blocked
    requires ThreadOk(s, u)
    ensures ThreadOk(s', u)
  {
    hide Copies, AllCopyable, OnTop, HasArgs, Settled, Delivered;
    var th := s.threads[u];
    var call := s.calls[th.call];
    assert s'.threads[u] == th;
    if call.peer != None {
      var h := s.mutex.value;
      assert h != t;
      assert s'.threads[h] == s.threads[h];
      if s.threads[h].pc !in {CopyingIn, CopyingOut} {
        DeliveredFrame(s.calls, s'.calls, th.call, th.stack);
      }
    }
  }

  lemma OtherPartnerOk(s: State, s': State, t: nat, u: nat)
    requires CallsOk(s) && CallsOk(s') && Quiet(s, s', t) && SlotOk(s) && PartnersOk(s)
    requires u < |s.threads| && u != t && Serving(s.threads[u].pc)
    ensures var peer := s'.calls[s'.threads[u].call].peer;
            && peer.Some? && peer.value < |s'.calls|
            && var w := s'.calls[peer.value].thread;
               w < |s'.threads| && Pair(s', u, w)
  {
    var w := s.calls[s.calls[s.threads[u].call].peer.value].thread;
    assert Pair(s, u, w);
    assert w != t;
  }

  lemma OutcomeFrame(calls: seq<Call>, calls': seq<Call>, c: nat)
    requires SameArgs(calls, calls') && c < |calls| && OutcomeOk(calls, c)
    requires calls'[c].peer == calls[c].peer && calls'[c].outcome == calls[c].outcome
    ensures OutcomeOk(calls', c)
  {
    hide Copies, AllCopyable;
  }

  /** What remains to be shown of a quiet step. */
  lemma QuietCallsInv(s: State, s': State, t: nat)
    requires Inv(s) && Quiet(s, s', t)
    requires CallsOk(s') && SlotOk(s') && !Serving(s'.threads[t].pc) && ThreadOk(s', t)
    requires PeersOk(s'.calls) && forall c | 0 <= c < |s'.calls| :: OutcomeOk(s'.calls, c)
    ensures Inv(s')
  {
    hide ThreadOk, OutcomeOk;
    forall u | 0 <= u < |s'.threads| ensures ThreadOk(s', u) {
      OtherOk(s, s', t, u);
    }
    forall u | 0 <= u < |s'.threads| && Serving(s'.threads[u].pc)
      ensures var peer := s'.calls[s'.threads[u].call].peer;
              && peer.Some? && peer.value < |s'.calls|
              && var w := s'.calls[peer.value].thread;
                 w < |s'.threads| && Pair(s', u, w)
    {
      OtherPartnerOk(s, s', t, u);
    }
  }

  lemma QuietInv(s: State, s': State, t: nat)
    requires Inv(s) && Quiet(s, s', t) && s'.calls == s.calls
    requires CallsOk(s') && SlotOk(s') && !Serving(s'.threads[t].pc) && ThreadOk(s', t)
    ensures Inv(s')
  {
    hide ThreadOk, OutcomeOk;
    QuietCallsInv(s, s', t);
  }

  lemma OtherOk(s: State, s': State, t: nat, u: nat)
    requires CallsOk(s) && CallsOk(s') && Quiet(s, s', t) && SlotOk(s) && u < |s.threads|
    requires ThreadOk(s, u) && ThreadOk(s', t)
    ensures ThreadOk(s', u)
  {
    hide ThreadOk;
    if u != t {
      if s.threads[u].pc == Blocked {
        OtherBlockedOk(s, s', t, u);
      } else {
        OtherThreadOk(s, s', t, u);
      }
    }
  }

  // --- one lemma for each step ---

  lemma SlotFrame(s: State, s': State)
    requires SlotOk(s) && s'.mutex == s.mutex && s'.waiter == s.waiter && |s'.threads| == |s.threads|
    requires forall u | 0 <= u < |s.threads| ::
               var pc, pc' := s.threads[u].pc, s'.threads[u].pc;
               || pc == pc'
               || {pc, pc'} <= {Counting, CopyingIn, CopyingOut, Clearing}
               || {pc, pc'} <= {Idle, Locking, Returning}
    ensures SlotOk(s')
  {
    forall u | 0 <= u < |s.threads|
      ensures HoldsMutex(s'.threads[u].pc) <==> HoldsMutex(s.threads[u].pc)
    {
      assert s'.threads[u].pc in {s.threads[u].pc, s'.threads[u].pc};
      assert s.threads[u].pc in {s.threads[u].pc, s'.threads[u].pc};
    }
  }

  lemma CallsFrame(s: State, s': State)
    requires CallsOk(s) && s'.calls == s.calls && |s'.threads| == |s.threads|
    requires forall u | 0 <= u < |s.threads| ::
               var th, th' := s.threads[u], s'.threads[u];
               && (th'.pc == Idle <==> th.pc == Idle)
               && th'.call == th.call && th'.kind == th.kind && th'.narg == th.narg
    ensures CallsOk(s')
  {
  }

  /** What a step of t alone has to respect to keep the slot and the mutex consistent. */
  lemma SlotStep(s: State, s': State, t: nat)
    requires SlotOk(s) && |s'.threads| == |s.threads| && t < |s.threads|
    requires forall u | 0 <= u < |s.threads| && u != t :: s'.threads[u] == s.threads[u]
    requires var pc, pc' := s.threads[t].pc, s'.threads[t].pc;
             && (|| (s'.mutex == s.mutex && HoldsMutex(pc') == HoldsMutex(pc))
                 || (s.mutex == None && s'.mutex == Some(t) && HoldsMutex(pc'))
                 || (s.mutex == Some(t) && s'.mutex == None && !HoldsMutex(pc')))
             && (s'.waiter != s.waiter ==>
                   s.mutex == Some(t) && s'.waiter in {None, Some(t)} && s.waiter in {None, Some(t)})
             && (s'.waiter == Some(t) <==> pc' in {Registered, TimedOut, Blocked} && s'.waiter == Some(t))
             && (pc' in {Registered, TimedOut} ==> s'.waiter == Some(t))
             && (pc' in {Counting, CopyingIn, CopyingOut, Clearing} ==> s'.waiter.Some?)
             && (pc' == Signalling ==> s'.waiter == None)
             && pc' != Expired
    ensures SlotOk(s')
  {
  }

  lemma LockInv(s: State, s': State, t: nat)
    requires Inv(s) && t < |s.threads| && Lock(s, s', t)
    ensures Inv(s')
  {
    hide Copies, AllCopyable, OnTop, HasArgs, Settled, Delivered, OutcomeOk, HasArgsAndCount;
    CallsFrame(s, s');
    assert ThreadOk(s, t);
    hide PartnersOk, PeersOk, CallsOk;
    SlotStep(s, s', t);
    hide SlotOk;
    assert ThreadOk(s', t);
    hide ThreadOk;
    QuietInv(s, s', t);
  }

  lemma LockTimeoutInv(s: State, s': State, t: nat)
    requires Inv(s) && t < |s.threads| && LockTimeout(s, s', t)
    ensures Inv(s')
  {
    hide Copies, AllCopyable, OnTop, OutcomeOk, Delivered;
    CallsFrame(s, s');
    assert ThreadOk(s, t);
    hide PartnersOk, PeersOk, CallsOk;
    SlotStep(s, s', t);
    hide SlotOk;
    assert ThreadOk(s', t);
    hide ThreadOk;
    QuietInv(s, s', t);
  }

  lemma RegisterInv(s: State, s': State, t: nat)
    requires Inv(s) && t < |s.threads| && Register(s, s', t)
    ensures Inv(s')
  {
    hide Copies, AllCopyable, OnTop, Settled, Delivered, OutcomeOk;
    CallsFrame(s, s');
    assert ThreadOk(s, t);
    hide PartnersOk, PeersOk, CallsOk;
    SlotStep(s, s', t);
    hide SlotOk;
    assert ThreadOk(s', t);
    hide ThreadOk;
    QuietInv(s, s', t);
  }

  lemma FindWaiterInv(s: State, s': State, t: nat)
    requires Inv(s) && t < |s.threads| && FindWaiter(s, s', t)
    ensures Inv(s')
  {
    hide Copies, AllCopyable, OnTop, HasArgs, Settled, Delivered, OutcomeOk, HasArgsAndCount;
    CallsFrame(s, s');
    assert ThreadOk(s, t);
    hide PartnersOk, PeersOk, CallsOk;
    SlotStep(s, s', t);
    hide SlotOk;
    assert ThreadOk(s', t);
    hide ThreadOk;
    QuietInv(s, s', t);
  }

  lemma SleepInv(s: State, s': State, t: nat)
    requires Inv(s) && t < |s.threads| && Sleep(s, s', t)
    ensures Inv(s')
  {
    hide Copies, AllCopyable, OnTop, HasArgs, Settled, Delivered, OutcomeOk, HasArgsAndCount;
    CallsFrame(s, s');
    assert ThreadOk(s, t);
    hide PartnersOk, PeersOk, CallsOk;
    SlotStep(s, s', t);
    hide SlotOk;
    assert ThreadOk(s', t);
    hide ThreadOk;
    QuietInv(s, s', t);
  }

  lemma ReacquireInv(s: State, s': State, t: nat)
    requires Inv(s) && t < |s.threads| && Reacquire(s, s', t)
    ensures Inv(s')
  {
    hide Copies, AllCopyable, OnTop, HasArgs, Settled, Delivered, OutcomeOk, HasArgsAndCount;
    CallsFrame(s, s');
    assert ThreadOk(s, t);
    hide PartnersOk, PeersOk, CallsOk;
    SlotStep(s, s', t);
    hide SlotOk;
    assert ThreadOk(s', t);
    hide ThreadOk;
    QuietInv(s, s', t);
  }

  lemma ReadCountThreadOk(s: State, s': State, t: nat)
    requires CallsOk(s) && t < |s.threads| && ThreadOk(s, t) && ReadCount(s, s', t)
    ensures CallsOk(s') && ThreadOk(s', t)
  {
    hide Copies, AllCopyable, OnTop, HasArgs, Settled, HasArgsAndCount;
  }

  lemma ReadCountInv(s: State, s': State, t: nat)
    requires Inv(s) && t < |s.threads| && ReadCount(s, s', t)
    ensures Inv(s')
  {
    hide Copies, AllCopyable, OnTop, HasArgs, Settled, OutcomeOk, HasArgsAndCount;
    ReadCountThreadOk(s, s', t);
    SlotStep(s, s', t);
    hide ThreadOk, Delivered, SlotOk, CallsOk, PeersOk, PartnersOk;
    QuietInv(s, s', t);
  }

  lemma TimeoutInv(s: State, s': State, t: nat)
    requires Inv(s) && t < |s.threads| && Timeout(s, s', t)
    ensures Inv(s')
  {
    hide Copies, AllCopyable, OnTop, HasArgs, Settled, Delivered, OutcomeOk, HasArgsAndCount;
    CallsFrame(s, s');
    assert ThreadOk(s, t);
    hide PartnersOk, PeersOk, CallsOk;
    SlotStep(s, s', t);
    hide SlotOk;
    assert ThreadOk(s', t);
    hide ThreadOk;
    QuietInv(s, s', t);
  }

  lemma WithdrawThreadOk(s: State, s': State, t: nat)
    requires CallsOk(s) && t < |s.threads| && ThreadOk(s, t) && Withdraw(s, s', t)
    ensures CallsOk(s') && ThreadOk(s', t)
  {
    hide Copies, AllCopyable, OnTop, Delivered;
  }

  lemma WithdrawInv(s: State, s': State, t: nat)
    requires Inv(s) && t < |s.threads| && Withdraw(s, s', t)
    ensures Inv(s')
  {
    hide Copies, AllCopyable, OnTop, Delivered, OutcomeOk;
    WithdrawThreadOk(s, s', t);
    SlotStep(s, s', t);
    hide ThreadOk, Settled, SlotOk, CallsOk, PeersOk, PartnersOk;
    QuietInv(s, s', t);
  }

  lemma UnlockThreadOk(s: State, s': State, t: nat)
    requires CallsOk(s) && t < |s.threads| && ThreadOk(s, t) && Unlock(s, s', t)
    ensures CallsOk(s') && ThreadOk(s', t)
  {
    hide Copies, AllCopyable, OnTop, HasArgs, Settled, Delivered, HasArgsAndCount;
    CallsFrame(s, s');
    hide CallsOk;
  }

  lemma UnlockInv(s: State, s': State, t: nat)
    requires Inv(s) && t < |s.threads| && Unlock(s, s', t)
    ensures Inv(s')
  {
    hide Copies, AllCopyable, OnTop, HasArgs, Settled, Delivered, OutcomeOk, HasArgsAndCount;
    UnlockThreadOk(s, s', t);
    hide ThreadOk, CallsOk, PeersOk, PartnersOk;
    SlotStep(s, s', t);
    hide SlotOk;
    QuietInv(s, s', t);
  }

  lemma BeginInv(s: State, s': State, t: nat, kind: Kind, frame: seq<Value>)
    requires Inv(s) && t < |s.threads| && Begin(s, s', t, kind, frame)
    ensures Inv(s')
  {
    hide Copies, AllCopyable, OnTop, Settled, Delivered, HasArgsAndCount;
    BeginThreadOk(s, s', t, kind, frame);
    hide ThreadOk, Begin;
    forall c | 0 <= c < |s.calls| ensures OutcomeOk(s'.calls, c) {
      OutcomeFrame(s.calls, s'.calls, c);
    }
    hide OutcomeOk;
    QuietCallsInv(s, s', t);
  }

  lemma BeginThreadOk(s: State, s': State, t: nat, kind: Kind, frame: seq<Value>)
    requires CallsOk(s) && SlotOk(s) && PeersOk(s.calls) && t < |s.threads| && Begin(s, s', t, kind, frame)
    ensures CallsOk(s') && SlotOk(s') && PeersOk(s'.calls) && ThreadOk(s', t) && Quiet(s, s', t)
    ensures |s'.calls| == |s.calls| + 1 && s'.calls[|s.calls|].outcome == Running
    ensures forall c | 0 <= c < |s.calls| :: s'.calls[c] == s.calls[c]
    ensures s'.threads[t].pc == Locking
  {
    hide Copies, AllCopyable, OnTop, Settled, Delivered, HasArgsAndCount;
  }

  lemma ReturnCallsOk(s: State, s': State, t: nat)
    requires CallsOk(s) && PeersOk(s.calls) && t < |s.threads| && Return(s, s', t)
    ensures CallsOk(s') && PeersOk(s'.calls) && SameCalls(s.calls, s'.calls)
  {
    var th := s.threads[t];
    assert s'.threads == s.threads[t := th.(pc := Idle)];
  }

  lemma ReturnThreadOk(s: State, s': State, t: nat)
    requires Inv(s) && t < |s.threads| && Return(s, s', t)
    ensures CallsOk(s') && SlotOk(s') && PeersOk(s'.calls) && ThreadOk(s', t) && Quiet(s, s', t)
    ensures s'.threads[t].pc == Idle
  {
    hide Copies, AllCopyable, OnTop, Settled, Delivered, HasArgsAndCount, HasArgs, OutcomeOk;
    ReturnCallsOk(s, s', t);
    SlotFrame(s, s');
    hide CallsOk, PeersOk, SameCalls, PartnersOk, SlotOk;
  }

  /** What a timed call hands over besides its results is the last value of its own frame. */
  lemma BelowTheResults(call: Call, stack: seq<Value>, nres: nat)
    requires nres <= |stack| && HasArgs(stack[..|stack| - nres], call) && call.kind == Timed
    ensures nres < |stack| && |call.frame| > 0
    ensures Handed(stack, nres + 1) == [call.frame[|call.frame| - 1]] + Handed(stack, nres)
  {
    assert stack == stack[..|stack| - nres] + stack[|stack| - nres..];
  }

  lemma ReturnOutcomeOk(s: State, s': State, t: nat)
    requires CallsOk(s) && t < |s.threads| && Return(s, s', t) && ThreadOk(s, t)
    ensures OutcomeOk(s'.calls, s.threads[t].call)
  {
    var th := s.threads[t];
    assert Settled(s.calls, th.call, th.stack, th.nres);
    hide ThreadOk, CallsOk, Settled, OutcomeOk;
    SettledEnds(s.calls, s'.calls, th.call, th.stack, th.nres);
  }

  /** The outcome that a settled call is given. */
  lemma SettledEnds(calls: seq<Call>, calls': seq<Call>, c: nat, stack: seq<Value>, nres: int)
    requires c < |calls| && Settled(calls, c, stack, nres) && HandedCount(calls[c].kind, nres) <= |stack|
    requires |stack| > 0
    requires var outcome :=
               if nres >= 0 then Returned(Handed(stack, nres), Handed(stack, HandedCount(calls[c].kind, nres)))
               else if nres == -1 then Failed(stack[|stack| - 1])
               else NoPartner;
             calls' == calls[c := calls[c].(outcome := outcome)]
    ensures OutcomeOk(calls', c)
  {
    hide Copies, AllCopyable, HasArgs;
    if nres >= 0 && calls[c].kind == Timed {
      BelowTheResults(calls[c], stack, nres);
    }
  }

  lemma ReturnInv(s: State, s': State, t: nat)
    requires Inv(s) && t < |s.threads| && Return(s, s', t)
    ensures Inv(s')
  {
    hide Copies, AllCopyable, OnTop, Settled, Delivered, HasArgsAndCount, HasArgs, OutcomeOk, ThreadOk;
    ReturnThreadOk(s, s', t);
    forall c | 0 <= c < |s'.calls| ensures OutcomeOk(s'.calls, c) {
      if c == s.threads[t].call {
        ReturnOutcomeOk(s, s', t);
      } else {
        OutcomeFrame(s.calls, s'.calls, c);
      }
    }
    QuietCallsInv(s, s', t);
  }

  // --- the exchange itself ---

  /** At most one thread is blocked and unsignalled. */
  lemma OneBlocked(s: State, u: nat, w: nat)
    requires Inv(s) && u < |s.threads| && w < |s.threads|
    requires s.threads[u].pc == Blocked && s.threads[w].pc == Blocked
    ensures u == w
  {
    hide Copies, AllCopyable, OnTop, Settled, Delivered, HasArgsAndCount, HasArgs, OutcomeOk;
    assert ThreadOk(s, u) && ThreadOk(s, w);
  }

  /** A third thread is neither blocked nor holds the mutex. */
  lemma Bystander(s: State, s': State, t: nat, w: nat, u: nat)
    requires Inv(s) && Joint(s, s', t, w) && u < |s.threads| && u != t && u != w
    ensures s.threads[u].pc != Blocked && !HoldsMutex(s.threads[u].pc)
  {
    if s.threads[u].pc == Blocked {
      hide Inv;
      OneBlocked(s, u, w);
    }
  }

  /** Who neither waits nor holds the mutex does not depend on the others. */
  lemma ThreadCarries(s: State, s': State, u: nat)
    requires CallsOk(s) && CallsOk(s') && u < |s.threads| && u < |s'.threads| && ThreadOk(s, u)
    requires s'.threads[u] == s.threads[u] && s.threads[u].pc != Blocked && !HoldsMutex(s.threads[u].pc)
    requires SameArgs(s.calls, s'.calls)
    requires s.threads[u].pc != Idle ==> s'.calls[s.threads[u].call].peer == s.calls[s.threads[u].call].peer
    ensures ThreadOk(s', u)
  {
    hide Copies, AllCopyable, OnTop, Settled, Delivered, HasArgsAndCount, HasArgs;
    var th := s.threads[u];
    if th.pc == Woken {
      DeliveredFrame(s.calls, s'.calls, th.call, th.stack);
    } else if th.pc == Returning {
      SettledFrame(s.calls, s'.calls, th.call, th.stack, th.nres);
    }
  }

  lemma BystanderOk(s: State, s': State, t: nat, w: nat, u: nat)
    requires Inv(s) && Joint(s, s', t, w) && CallsOk(s')
    requires u < |s.threads| && u != t && u != w
    requires s.threads[u].pc != Idle ==> s'.calls[s.threads[u].call].peer == s.calls[s.threads[u].call].peer
    ensures s.threads[u].pc != Blocked && !Serving(s.threads[u].pc) && ThreadOk(s', u)
  {
    hide ThreadOk, OutcomeOk, SlotOk, PeersOk, PartnersOk;
    Bystander(s, s', t, w, u);
    ThreadCarries(s, s', u);
  }

  /** What remains to be shown of a step of the exchange. */
  lemma JointInv(s: State, s': State, t: nat, w: nat)
    requires Inv(s) && Joint(s, s', t, w) && CallsOk(s') && SlotOk(s') && PeersOk(s'.calls)
    requires forall c | 0 <= c < |s.calls| && c != s.threads[t].call && c != s.threads[w].call ::
               s'.calls[c] == s.calls[c]
    requires s.calls[s.threads[t].call].outcome == s'.calls[s.threads[t].call].outcome
    requires s.calls[s.threads[w].call].outcome == s'.calls[s.threads[w].call].outcome
    requires s'.waiter == s.waiter || s'.waiter == None
    requires s'.threads[w].pc != Idle && !Serving(s'.threads[w].pc)
    requires s'.threads[w].call == s.threads[w].call && s'.threads[t].call == s.threads[t].call
    requires Serving(s'.threads[t].pc) && Pair(s', t, w)
    requires ThreadOk(s', t) && ThreadOk(s', w)
    ensures Inv(s')
  {
    hide Copies, AllCopyable, OnTop, Settled, Delivered, HasArgsAndCount, HasArgs, OutcomeOk, ThreadOk;
    forall u | 0 <= u < |s'.threads| ensures ThreadOk(s', u)
      ensures Serving(s'.threads[u].pc) ==> u == t
    {
      if u != t && u != w {
        BystanderOk(s, s', t, w, u);
      }
    }
    hide SlotOk, PeersOk, Pair;
    JointOutcomes(s, s', t, w);
  }

  lemma JointOutcomes(s: State, s': State, t: nat, w: nat)
    requires CallsOk(s) && Joint(s, s', t, w)
    requires forall c | 0 <= c < |s.calls| :: OutcomeOk(s.calls, c)
    requires forall c | 0 <= c < |s.calls| && c != s.threads[t].call && c != s.threads[w].call ::
               s'.calls[c] == s.calls[c]
    requires s.calls[s.threads[t].call].outcome == s'.calls[s.threads[t].call].outcome
    requires s.calls[s.threads[w].call].outcome == s'.calls[s.threads[w].call].outcome
    ensures forall c | 0 <= c < |s'.calls| :: OutcomeOk(s'.calls, c)
  {
    hide OutcomeOk;
    forall c | 0 <= c < |s'.calls| ensures OutcomeOk(s'.calls, c) {
      if c == s.threads[t].call || c == s.threads[w].call {
        RunningOk(s'.calls, c);
      } else {
        OutcomeFrame(s.calls, s'.calls, c);
      }
    }
  }

  lemma RunningOk(calls: seq<Call>, c: nat)
    requires c < |calls| && calls[c].outcome == Running
    ensures OutcomeOk(calls, c)
  {
  }

  /** The thread in the slot when a count is taken is blocked and has no partner yet. */
  lemma UnboundWaiter(s: State, t: nat, w: nat)
    requires Inv(s) && t < |s.threads| && s.threads[t].pc == Counting && s.waiter == Some(w)
    ensures w < |s.threads| && w != t && s.mutex == Some(t) && s.threads[w].pc == Blocked
    ensures s.calls[s.threads[t].call].peer == None && s.calls[s.threads[w].call].peer == None
    ensures s.threads[t].call != s.threads[w].call
  {
    hide Copies, AllCopyable, OnTop, Settled, Delivered, HasArgsAndCount, HasArgs, OutcomeOk;
    assert ThreadOk(s, t) && ThreadOk(s, w);
  }

  lemma TakeCountPeers(calls: seq<Call>, calls': seq<Call>, c: nat, d: nat)
    requires PeersOk(calls) && c < |calls| && d < |calls| && calls[c].thread != calls[d].thread
    requires calls[c].peer == None && calls[d].peer == None
    requires calls' == calls[c := calls[c].(peer := Some(d))][d := calls[d].(peer := Some(c))]
    ensures PeersOk(calls') && |calls'| == |calls| && SameArgs(calls, calls')
  {
  }

  lemma TakeCountThreads(s: State, s': State, t: nat, w: nat)
    requires CallsOk(s) && t < |s.threads| && w < |s.threads| && TakeCount(s, s', t, w)
    requires s.threads[w].pc != Idle && s.threads[t].call != s.threads[w].call
    ensures CallsOk(s')
  {
    var th, wh := s.threads[t], s.threads[w];
    assert s'.threads[t] == th.(pc := CopyingIn, nres := wh.stack[|wh.stack| - 1].i);
    assert s'.threads[w] == wh.(stack := wh.stack[..|wh.stack| - 1]);
  }

  lemma TakeCountCalls(s: State, s': State, t: nat, w: nat)
    requires Inv(s) && t < |s.threads| && w < |s.threads| && TakeCount(s, s', t, w)
    ensures CallsOk(s') && SlotOk(s') && PeersOk(s'.calls) && Joint(s, s', t, w) && Pair(s', t, w)
  {
    hide Copies, AllCopyable, OnTop, Settled, Delivered, HasArgsAndCount, HasArgs, OutcomeOk, ThreadOk;
    UnboundWaiter(s, t, w);
    TakeCountThreads(s, s', t, w);
    TakeCountPeers(s.calls, s'.calls, s.threads[t].call, s.threads[w].call);
    hide CallsOk, PeersOk, PartnersOk, SameArgs;
    SlotFrame(s, s');
    hide SlotOk;
  }

  lemma TakeCountStacks(s: State, s': State, t: nat, w: nat)
    requires Inv(s) && t < |s.threads| && w < |s.threads| && TakeCount(s, s', t, w)
    requires CallsOk(s') && Pair(s', t, w) && s'.mutex == Some(t)
    ensures ThreadOk(s', t) && ThreadOk(s', w)
  {
    hide Copies, AllCopyable, OnTop, Settled, Delivered, OutcomeOk;
    UnboundWaiter(s, t, w);
    assert ThreadOk(s, t) && ThreadOk(s, w);
    hide CallsOk, PeersOk, PartnersOk, SlotOk, HasArgs;
  }

  lemma TakeCountInv(s: State, s': State, t: nat, w: nat)
    requires Inv(s) && t < |s.threads| && w < |s.threads| && TakeCount(s, s', t, w)
    ensures Inv(s')
  {
    hide OutcomeOk, ThreadOk;
    TakeCountCalls(s, s', t, w);
    TakeCountStacks(s, s', t, w);
    hide CallsOk, PeersOk, PartnersOk, SlotOk;
    JointInv(s, s', t, w);
  }

  /** While t serves, its partner is the blocked thread in the slot. */
  lemma PartnerInSlot(s: State, t: nat, w: nat)
    requires Inv(s) && t < |s.threads| && s.threads[t].pc in {CopyingIn, CopyingOut, Clearing}
    requires s.waiter == Some(w)
    ensures w < |s.threads| && Pair(s, t, w) && s.mutex == Some(t)
    ensures s.calls[s.threads[w].call].peer == Some(s.threads[t].call)
  {
    hide Copies, AllCopyable, OnTop, Settled, Delivered, HasArgsAndCount, HasArgs, OutcomeOk;
    var v := s.calls[s.calls[s.threads[t].call].peer.value].thread;
    assert Pair(s, t, v);
    assert ThreadOk(s, v);
  }

  /** Both sides of a failed copy hold a message, and the waiter's count is -1. */
  lemma FailedBoth(calls: seq<Call>, c: nat, d: nat, own: seq<Value>, theirs: seq<Value>, m: Value)
    requires c < |calls| && d < |calls| && calls[c].peer == Some(d) && calls[d].peer == Some(c) && m.Str?
    requires !(AllCopyable(calls[c].args) && AllCopyable(calls[d].args))
    ensures Settled(calls, c, own + [m], -1)
    ensures Delivered(calls, d, theirs + [m, Integer(-1)])
  {
    hide Copies, AllCopyable, OnTop;
    var stack := theirs + [m, Integer(-1)];
    assert stack[..|stack| - 1] == theirs + [m];
  }

  /** Both copies touch only the two stacks, the count and the active thread's progress. */
  predicate CopyFrame(s: State, s': State, t: nat, w: nat)
    requires t < |s.threads| && w < |s.threads|
  {
    && s' == s.(threads := s'.threads) && |s'.threads| == |s.threads| && t != w
    && s.waiter == Some(w) && {s.threads[t].pc, s'.threads[t].pc} <= {CopyingIn, CopyingOut, Clearing}
    && s'.threads[t] == s.threads[t].(pc := s'.threads[t].pc, stack := s'.threads[t].stack, nres := s'.threads[t].nres)
    && s'.threads[w] == s.threads[w].(stack := s'.threads[w].stack)
    && forall u | 0 <= u < |s.threads| && u != t && u != w :: s'.threads[u] == s.threads[u]
  }

  lemma CopyInFrame(s: State, s': State, t: nat, w: nat, own: seq<Value>, theirs: seq<Value>, r: int, m: Value)
    requires t < |s.threads| && w < |s.threads| && CopyIn(s, s', t, w, own, theirs, r, m)
    ensures CopyFrame(s, s', t, w)
  {
    hide CopyOutcome;
  }

  lemma CopyOutFrame(s: State, s': State, t: nat, w: nat, own: seq<Value>, theirs: seq<Value>, r: int, m: Value)
    requires t < |s.threads| && w < |s.threads| && CopyOut(s, s', t, w, own, theirs, r, m)
    ensures CopyFrame(s, s', t, w)
  {
    hide CopyOutcome;
  }

  lemma CopyThreads(s: State, s': State, t: nat, w: nat)
    requires Inv(s) && t < |s.threads| && w < |s.threads| && CopyFrame(s, s', t, w)
    ensures Joint(s, s', t, w) && Pair(s', t, w) && CallsOk(s') && SlotOk(s')
  {
    hide Copies, AllCopyable, OnTop, Settled, Delivered, HasArgsAndCount, HasArgs, OutcomeOk;
    assert s.threads[t].pc in {s.threads[t].pc, s'.threads[t].pc};
    PartnerInSlot(s, t, w);
    CallsFrame(s, s');
    SlotFrame(s, s');
    assert s'.threads[t].pc in {s.threads[t].pc, s'.threads[t].pc};
    hide ThreadOk, CallsOk, PeersOk, PartnersOk, SlotOk;
  }

  /** The waiter's window is exactly its arguments; a successful copy puts them on top. */
  lemma CopyInStack(call: Call, peer: Call, stack: seq<Value>, waiting: seq<Value>, g: nat,
                    own: seq<Value>, theirs: seq<Value>, r: int)
    requires HasArgs(stack, call) && HasArgs(waiting, peer)
    requires CopyOutcome(waiting, stack, |waiting| - |peer.args| + 1, |peer.args|, g, theirs, own, r)
    ensures r == 0 <==> AllCopyable(peer.args)
    ensures r == 0 ==> theirs == waiting && |own| == Base(call.kind) + |call.args| + |peer.args|
                       && HasArgs(own[..Base(call.kind) + |call.args|], call)
                       && OnTop(Copies(peer.args, g), own)
  {
    hide Copyable, CopyOf, Copies, AllCopyable;
    assert waiting[|waiting| - |peer.args|..] == peer.args;
    assert Window(waiting, |waiting| - |peer.args| + 1, |peer.args|) == peer.args;
    if r == 0 {
      assert own[..|stack|] == stack && own[|stack|..] == Copies(peer.args, g);
    }
  }

  /** What the copy in finds: both stacks hold their call's arguments, and the calls are partners. */
  lemma CopyInStarts(s: State, t: nat, w: nat)
    requires Inv(s) && t < |s.threads| && s.threads[t].pc == CopyingIn && s.waiter == Some(w)
    ensures w < |s.threads| && Pair(s, t, w) && s.mutex == Some(t)
    ensures s.threads[t].call < |s.calls| && s.threads[w].call < |s.calls|
    ensures var c, d := s.threads[t].call, s.threads[w].call;
            && s.calls[c].peer == Some(d) && s.calls[d].peer == Some(c)
            && HasArgs(s.threads[t].stack, s.calls[c]) && HasArgs(s.threads[w].stack, s.calls[d])
            && s.threads[t].nres == |s.calls[d].args|
  {
    hide Copies, AllCopyable, OnTop, Settled, Delivered, HasArgsAndCount, HasArgs, OutcomeOk;
    PartnerInSlot(s, t, w);
    assert ThreadOk(s, t) && ThreadOk(s, w);
  }

  lemma CopyInActive(s: State, s': State, t: nat, w: nat, own: seq<Value>, theirs: seq<Value>, r: int, m: Value)
    requires Inv(s) && t < |s.threads| && w < |s.threads| && CopyIn(s, s', t, w, own, theirs, r, m)
    requires CallsOk(s')
    ensures ThreadOk(s', t)
  {
    hide Copyable, CopyOf, Copies, AllCopyable, OutcomeOk, CopyOutcome, HasArgs, OnTop, Settled, Delivered;
    CopyInStarts(s, t, w);
    hide Inv, CallsOk;
    var c, d := s.threads[t].call, s.threads[w].call;
    CopyInStack(s.calls[c], s.calls[d], s.threads[t].stack, s.threads[w].stack, GlobalsOf(t), own, theirs, r);
    if r != 0 {
      FailedBoth(s.calls, c, d, own, theirs, m);
    }
  }

  lemma CopyInWaiting(s: State, s': State, t: nat, w: nat, own: seq<Value>, theirs: seq<Value>, r: int, m: Value)
    requires Inv(s) && t < |s.threads| && w < |s.threads| && CopyIn(s, s', t, w, own, theirs, r, m)
    requires CallsOk(s') && Pair(s', t, w)
    ensures ThreadOk(s', w)
  {
    hide Copyable, CopyOf, Copies, AllCopyable, OutcomeOk, CopyOutcome, HasArgs, OnTop, Settled, Delivered;
    CopyInStarts(s, t, w);
    hide Inv, CallsOk;
    var c, d := s.threads[t].call, s.threads[w].call;
    CopyInStack(s.calls[c], s.calls[d], s.threads[t].stack, s.threads[w].stack, GlobalsOf(t), own, theirs, r);
    if r != 0 {
      FailedBoth(s.calls, c, d, own, theirs, m);
    }
  }

  lemma CopyInInv(s: State, s': State, t: nat, w: nat, own: seq<Value>, theirs: seq<Value>, r: int, m: Value)
    requires Inv(s) && t < |s.threads| && w < |s.threads| && CopyIn(s, s', t, w, own, theirs, r, m)
    ensures Inv(s')
  {
    CopyInFrame(s, s', t, w, own, theirs, r, m);
    CopyThreads(s, s', t, w);
    CopyInActive(s, s', t, w, own, theirs, r, m);
    CopyInWaiting(s, s', t, w, own, theirs, r, m);
    hide ThreadOk, OutcomeOk, CopyOutcome;
    JointInv(s, s', t, w);
  }

  lemma CopyOutStack(call: Call, stack: seq<Value>, waiting: seq<Value>, g: nat,
                     own: seq<Value>, theirs: seq<Value>, r: int)
    requires |stack| >= Base(call.kind) + |call.args| && HasArgs(stack[..Base(call.kind) + |call.args|], call)
    requires CopyOutcome(stack, waiting, Base(call.kind) + 1, |call.args|, g, own, theirs, r)
    ensures r == 0 <==> AllCopyable(call.args)
    ensures r == 0 ==> own == stack && OnTop(Copies(call.args, g), theirs) && |theirs| == |waiting| + |call.args|
                       && theirs[..|waiting|] == waiting
  {
    hide Copyable, CopyOf, Copies, AllCopyable;
    var n := Base(call.kind) + |call.args|;
    assert Window(stack, Base(call.kind) + 1, |call.args|) == stack[..n][Base(call.kind)..];
    if r == 0 {
      assert theirs[|waiting|..] == Copies(call.args, g);
    }
  }

  lemma DeliveredCount(calls: seq<Call>, d: nat, theirs: seq<Value>, n: nat)
    requires d < |calls| && calls[d].peer.Some? && Settled(calls, d, theirs, n)
    ensures Delivered(calls, d, theirs + [Integer(n)])
  {
    hide Copies, AllCopyable, OnTop;
    assert (theirs + [Integer(n)])[..|theirs|] == theirs;
  }

  lemma CopyOutStacks(s: State, s': State, t: nat, w: nat, own: seq<Value>, theirs: seq<Value>, r: int, m: Value)
    requires Inv(s) && t < |s.threads| && w < |s.threads| && CopyOut(s, s', t, w, own, theirs, r, m)
    requires CallsOk(s')
    ensures ThreadOk(s', t) && ThreadOk(s', w)
  {
    hide Copyable, CopyOf, Copies, AllCopyable, OutcomeOk, CopyOutcome, OnTop, Delivered;
    PartnerInSlot(s, t, w);
    assert ThreadOk(s, t) && ThreadOk(s, w);
    var th, wh := s.threads[t], s.threads[w];
    var call, peer := s.calls[th.call], s.calls[wh.call];
    CopyOutStack(call, th.stack, wh.stack, GlobalsOf(w), own, theirs, r);
    if r == 0 {
      DeliveredCount(s.calls, wh.call, theirs, th.narg);
    } else {
      FailedBoth(s.calls, th.call, wh.call, own, theirs, m);
    }
    hide Settled, HasArgs;
  }

  lemma CopyOutInv(s: State, s': State, t: nat, w: nat, own: seq<Value>, theirs: seq<Value>, r: int, m: Value)
    requires Inv(s) && t < |s.threads| && w < |s.threads| && CopyOut(s, s', t, w, own, theirs, r, m)
    ensures Inv(s')
  {
    CopyOutFrame(s, s', t, w, own, theirs, r, m);
    CopyThreads(s, s', t, w);
    CopyOutStacks(s, s', t, w, own, theirs, r, m);
    hide ThreadOk, OutcomeOk, CopyOutcome;
    JointInv(s, s', t, w);
  }

  lemma ClearInv(s: State, s': State, t: nat)
    requires Inv(s) && t < |s.threads| && Clear(s, s', t)
    ensures Inv(s')
  {
    hide Copies, AllCopyable, OnTop, Settled, Delivered, HasArgsAndCount, HasArgs, OutcomeOk;
    var w := s.waiter.value;
    PartnerInSlot(s, t, w);
    assert ThreadOk(s, t) && ThreadOk(s, w);
    assert ThreadOk(s', t) && ThreadOk(s', w);
    hide ThreadOk;
    JointInv(s, s', t, w);
  }

  /** A signal finds exactly one blocked thread: the partner. */
  lemma SignalWakesPartner(s: State, s': State, t: nat, woken: set<nat>) returns (w: nat)
    requires Inv(s) && t < |s.threads| && Signal(s, s', t, woken)
    ensures w < |s.threads| && Pair(s, t, w) && woken == {w} && s.mutex == Some(t)
    ensures s.threads[t].pc == Signalling
    ensures s' == s.(threads := s.threads[t := s.threads[t].(pc := Unlocking)][w := s.threads[w].(pc := Woken)])
  {
    hide Copies, AllCopyable, OnTop, Settled, Delivered, HasArgsAndCount, HasArgs, OutcomeOk, ThreadOk;
    w := s.calls[s.calls[s.threads[t].call].peer.value].thread;
    assert Pair(s, t, w);
    hide Inv, Signalled;
    forall u <- woken ensures u == w {
      OneBlocked(s, u, w);
    }
    assert woken == {w};
    SignalledPair(s.threads, t, w);
  }

  lemma SignalledPair(threads: seq<Thread>, t: nat, w: nat)
    requires t < |threads| && w < |threads| && t != w
    ensures Signalled(threads, t, {w})
         == threads[t := threads[t].(pc := Unlocking)][w := threads[w].(pc := Woken)]
  {
  }

  lemma SignalInv(s: State, s': State, t: nat, woken: set<nat>)
    requires Inv(s) && t < |s.threads| && Signal(s, s', t, woken)
    ensures Inv(s')
  {
    hide Copies, AllCopyable, OnTop, Settled, Delivered, HasArgsAndCount, HasArgs, OutcomeOk, Signal;
    var w := SignalWakesPartner(s, s', t, woken);
    SignalSlotOk(s, s', t, w);
    SignalPairOk(s, s', t, w);
    hide ThreadOk;
    forall u | 0 <= u < |s'.threads| ensures ThreadOk(s', u) && !Serving(s'.threads[u].pc) {
      if u != t && u != w {
        BystanderOk(s, s', t, w, u);
      }
    }
  }

  lemma SignalSlotOk(s: State, s': State, t: nat, w: nat)
    requires Inv(s) && t < |s.threads| && w < |s.threads| && Pair(s, t, w) && s.threads[t].pc == Signalling
    requires s' == s.(threads := s.threads[t := s.threads[t].(pc := Unlocking)][w := s.threads[w].(pc := Woken)])
    ensures CallsOk(s') && SlotOk(s') && Joint(s, s', t, w)
  {
    hide ThreadOk, OutcomeOk, PartnersOk, PeersOk;
    CallsFrame(s, s');
    hide CallsOk;
  }

  lemma SignalPairOk(s: State, s': State, t: nat, w: nat)
    requires CallsOk(s) && t < |s.threads| && w < |s.threads| && Pair(s, t, w) && s.threads[t].pc == Signalling
    requires s.calls[s.threads[w].call].peer.Some? && s.mutex == Some(t) && CallsOk(s')
    requires ThreadOk(s, t) && ThreadOk(s, w)
    requires s' == s.(threads := s.threads[t := s.threads[t].(pc := Unlocking)][w := s.threads[w].(pc := Woken)])
    ensures ThreadOk(s', t) && ThreadOk(s', w)
  {
    hide Settled, Delivered, HasArgsAndCount, HasArgs, CallsOk;
  }

  lemma MeetsInv(s: State, s': State, t: nat)
    requires Inv(s) && t < |s.threads| && Meets(s, s', t)
    ensures Inv(s')
  {
    hide Inv, MeetsWith;
    var w: nat :| w < |s.threads| && MeetsWith(s, s', t, w);
    MeetsWithInv(s, s', t, w);
  }

  lemma MeetsWithInv(s: State, s': State, t: nat, w: nat)
    requires Inv(s) && t < |s.threads| && w < |s.threads| && MeetsWith(s, s', t, w)
    ensures Inv(s')
  {
    hide Inv, TakeCount, CopyIn, CopyOut;
    if TakeCount(s, s', t, w) {
      TakeCountInv(s, s', t, w);
    } else if own, theirs, r, m :| CopyIn(s, s', t, w, own, theirs, r, m) {
      CopyInInv(s, s', t, w, own, theirs, r, m);
    } else {
      var own, theirs, r, m :| CopyOut(s, s', t, w, own, theirs, r, m);
      CopyOutInv(s, s', t, w, own, theirs, r, m);
    }
  }

  lemma StepInv(s: State, s': State, t: nat)
    requires Inv(s) && t < |s.threads| && Step(ASSUMED, s, s', t)
    ensures Inv(s')
  {
    hide Inv, Begin, Lock, LockTimeout, Register, FindWaiter, Sleep, Meets, Clear, Signal, Reacquire, ReadCount,
         Timeout, Withdraw, Unlock, Return;
    if kind, frame :| Begin(s, s', t, kind, frame) {
      BeginInv(s, s', t, kind, frame);
    } else if woken :| Signal(s, s', t, woken) {
      SignalInv(s, s', t, woken);
    } else if Lock(s, s', t) {
      LockInv(s, s', t);
    } else if LockTimeout(s, s', t) {
      LockTimeoutInv(s, s', t);
    } else if Register(s, s', t) {
      RegisterInv(s, s', t);
    } else if FindWaiter(s, s', t) {
      FindWaiterInv(s, s', t);
    } else if Sleep(s, s', t) {
      SleepInv(s, s', t);
    } else if Meets(s, s', t) {
      MeetsInv(s, s', t);
    } else if Clear(s, s', t) {
      ClearInv(s, s', t);
    } else if Reacquire(s, s', t) {
      ReacquireInv(s, s', t);
    } else if ReadCount(s, s', t) {
      ReadCountInv(s, s', t);
    } else if Timeout(s, s', t) {
      TimeoutInv(s, s', t);
    } else if Withdraw(s, s', t) {
      WithdrawInv(s, s', t);
    } else if Unlock(s, s', t) {
      UnlockInv(s, s', t);
    } else {
      ReturnInv(s, s', t);
    }
  }

  lemma {:induction false} RunInv(run: seq<State>, i: nat)
    requires Run(ASSUMED, run) && i < |run|
    ensures Inv(run[i])
  {
    hide Inv;
    if i == 0 {
      InitInv(run[0]);
    } else {
      RunInv(run, i - 1);
      assert Next(ASSUMED, run[i - 1], run[i - 1 + 1]);
      var t: nat :| t < |run[i - 1].threads| && Step(ASSUMED, run[i - 1], run[i], t);
      StepInv(run[i - 1], run[i], t);
    }
  }
}
