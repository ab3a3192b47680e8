/** The course of a call, and what each step does to those who have, or want, a partner. */
module RendezvousCourse {
  import opened Wrappers
  import opened Lua
  import opened DeepCopy
  import opened Exchange
  import opened Rendezvous
  import opened RendezvousProof

  /** The mutex holder has a blocked thread in the slot and will find it. */
  predicate WillMeet(s: State, t: nat, w: nat) {
    && s.mutex == Some(t) && t < |s.threads| && s.threads[t].pc in {Testing, Counting}
    && s.waiter == Some(w)
  }

  /** Thread t is in a call that has a partner, or is one of the two that are bound to meet. */
  predicate Matched(s: State, t: nat) {
    && t < |s.threads| && s.threads[t].pc != Idle && s.threads[t].call < |s.calls|
    && (|| s.calls[s.threads[t].call].peer.Some?
        || (s.mutex.Some? && s.waiter.Some? && WillMeet(s, s.mutex.value, s.waiter.value)
            && (s.mutex == Some(t) || s.waiter == Some(t))))
  }

  /** Thread t is in a call that still wants a partner and has none in sight. */
  predicate Seeks(s: State, t: nat) {
    t < |s.threads| && s.threads[t].pc in {Locking, Testing, Registered, Blocked} && !Matched(s, t)
  }

  predicate SomeoneElseSeeks(s: State, t: nat) {
    exists u: nat | u < |s.threads| :: u != t && Seeks(s, u)
  }

  // --- the course of a call ---

  /** Where a step inside a call takes the thread, the mutex and the slot. */
  predicate Course(s: State, s': State, t: nat)
    requires t < |s.threads| && t < |s'.threads|
  {
    var to := s'.threads[t].pc;
    match s.threads[t].pc
    case Idle | Expired => false
    case Locking =>
      && s'.waiter == s.waiter
      && if to == Testing then s.mutex == None && s'.mutex == Some(t)
         else to == Returning && s.threads[t].kind == Timed && s'.mutex == s.mutex
    case Testing =>
      && s'.mutex == s.mutex
      && if s.waiter == None then to == Registered && s'.waiter == Some(t)
         else to == Counting && s'.waiter == s.waiter
    case Registered => to == Blocked && s'.mutex == None && s'.waiter == s.waiter
    case Blocked =>
      && s.threads[t].kind == Timed && s.waiter == Some(t) && s.mutex == None
      && to == TimedOut && s'.mutex == Some(t) && s'.waiter == s.waiter
    case Woken => s.mutex == None && to == Resumed && s'.mutex == Some(t) && s'.waiter == s.waiter
    case Resumed => to == Unlocking && s'.mutex == s.mutex && s'.waiter == s.waiter
    case TimedOut => to == Unlocking && s'.mutex == s.mutex && s'.waiter == None
    case Counting => to == CopyingIn && s'.mutex == s.mutex && s'.waiter == s.waiter
    case CopyingIn => to in {CopyingOut, Clearing} && s'.mutex == s.mutex && s'.waiter == s.waiter
    case CopyingOut => to == Clearing && s'.mutex == s.mutex && s'.waiter == s.waiter
    case Clearing => to == Signalling && s'.mutex == s.mutex && s'.waiter == None
    case Signalling => to == Unlocking && s'.mutex == s.mutex && s'.waiter == s.waiter
    case Unlocking => to == Returning && s'.mutex == None && s'.waiter == s.waiter
    case Returning => to == Idle && s'.mutex == s.mutex && s'.waiter == s.waiter
  }

  /** Everybody stays in the same call; at most the blocked thread is woken besides. */
  predicate SameThreads(s: State, s': State, t: nat) {
    && |s'.threads| == |s.threads| && t < |s.threads|
    && forall u | 0 <= u < |s.threads| ::
         && s'.threads[u].call == s.threads[u].call && s'.threads[u].kind == s.threads[u].kind
         && (u != t ==>
               || s'.threads[u].pc == s.threads[u].pc
               || (s.threads[t].pc == Signalling && s.threads[u].pc == Blocked && s'.threads[u].pc == Woken))
  }

  /** Partners are bound when the count is taken, and then only the two that meet. */
  ghost predicate Binds(s: State, s': State, t: nat)
    requires t < |s.threads|
  {
    && |s'.calls| == |s.calls| && SameArgs(s.calls, s'.calls)
    && (forall c | 0 <= c < |s.calls| ::
          && (s.calls[c].outcome != Running ==> s'.calls[c].outcome != Running)
          && (s.calls[c].peer.Some? ==> s'.calls[c].peer.Some?))
    && if s.threads[t].pc == Counting then
         && s.waiter.Some? && s.waiter.value < |s.threads|
         && var c, d := s.threads[t].call, s.threads[s.waiter.value].call;
            && c < |s.calls| && d < |s.calls| && s'.calls[c].peer.Some? && s'.calls[d].peer.Some?
            && forall e | 0 <= e < |s.calls| && e != c && e != d :: s'.calls[e].peer == s.calls[e].peer
       else
         forall e | 0 <= e < |s.calls| :: s'.calls[e].peer == s.calls[e].peer
  }

  /** A step of thread t inside its call. */
  ghost predicate Moves(s: State, s': State, t: nat) {
    SameThreads(s, s', t) && Course(s, s', t) && Binds(s, s', t)
  }

  lemma TakeCountMoves(s: State, s': State, t: nat, w: nat)
    requires t < |s.threads| && w < |s.threads| && TakeCount(s, s', t, w)
    ensures Moves(s, s', t)
  {
  }

  lemma CopyInMoves(s: State, s': State, t: nat, w: nat, own: seq<Value>, theirs: seq<Value>, r: int, m: Value)
    requires t < |s.threads| && w < |s.threads| && CopyIn(s, s', t, w, own, theirs, r, m)
    ensures Moves(s, s', t)
  {
    hide CopyOutcome;
  }

  lemma CopyOutMoves(s: State, s': State, t: nat, w: nat, own: seq<Value>, theirs: seq<Value>, r: int, m: Value)
    requires t < |s.threads| && w < |s.threads| && CopyOut(s, s', t, w, own, theirs, r, m)
    ensures Moves(s, s', t)
  {
    hide CopyOutcome;
  }

  lemma MeetsMoves(s: State, s': State, t: nat, w: nat)
    requires t < |s.threads| && w < |s.threads| && MeetsWith(s, s', t, w)
    ensures Moves(s, s', t)
  {
    hide Moves, TakeCount, CopyIn, CopyOut;
    if TakeCount(s, s', t, w) {
      TakeCountMoves(s, s', t, w);
    } else if own, theirs, r, m :| CopyIn(s, s', t, w, own, theirs, r, m) {
      CopyInMoves(s, s', t, w, own, theirs, r, m);
    } else {
      var own, theirs, r, m :| CopyOut(s, s', t, w, own, theirs, r, m);
      CopyOutMoves(s, s', t, w, own, theirs, r, m);
    }
  }

  lemma SignalMoves(s: State, s': State, t: nat, woken: set<nat>)
    requires t < |s.threads| && Signal(s, s', t, woken)
    ensures Moves(s, s', t)
  {
  }

  lemma ReturnMoves(s: State, s': State, t: nat)
    requires t < |s.threads| && Return(s, s', t)
    ensures Moves(s, s', t)
  {
  }

  /** Up to the wait. */
  lemma EnteringMoves(s: State, s': State, t: nat)
    requires t < |s.threads|
    requires || Lock(s, s', t) || LockTimeout(s, s', t) || Register(s, s', t) || FindWaiter(s, s', t)
             || Sleep(s, s', t)
    ensures Moves(s, s', t)
  {
  }

  /** From the wait or the exchange to the end. */
  lemma LeavingMoves(s: State, s': State, t: nat)
    requires t < |s.threads|
    requires || Clear(s, s', t) || Reacquire(s, s', t) || ReadCount(s, s', t) || Timeout(s, s', t)
             || Withdraw(s, s', t) || Unlock(s, s', t)
    ensures Moves(s, s', t)
  {
  }

  /** A step either begins a call or takes one further. */
  lemma StepMoves(s: State, s': State, t: nat)
    requires t < |s.threads| && Step(ASSUMED, s, s', t)
    ensures Moves(s, s', t) || exists kind, frame :: Begin(s, s', t, kind, frame)
  {
    hide MeetsWith, Signal, Return, Moves, Lock, LockTimeout, Register, FindWaiter, Sleep, Begin;
    hide Clear, Reacquire, ReadCount, Timeout, Withdraw, Unlock, SpuriousWakeup, Expire, ReacquireLate;
    if Meets(s, s', t) {
      var w: nat :| w < |s.threads| && MeetsWith(s, s', t, w);
      MeetsMoves(s, s', t, w);
    } else if Return(s, s', t) {
      ReturnMoves(s, s', t);
    } else if woken :| Signal(s, s', t, woken) {
      SignalMoves(s, s', t, woken);
    } else if !(exists kind, frame :: Begin(s, s', t, kind, frame)) {
      if Lock(s, s', t) || LockTimeout(s, s', t) || Register(s, s', t) || FindWaiter(s, s', t) || Sleep(s, s', t) {
        EnteringMoves(s, s', t);
      } else {
        LeavingMoves(s, s', t);
      }
    }
  }

  // --- what a step does to the partners ---

  /** Where a thread stands, as far as partners are concerned. */
  predicate Placed(s: State, t: nat)
    requires t < |s.threads|
  {
    var th := s.threads[t];
    th.pc != Idle ==>
      && th.call < |s.calls| && s.calls[th.call].thread == t && s.calls[th.call].kind == th.kind
      && s.calls[th.call].outcome == Running
      && var peer := s.calls[th.call].peer;
         match th.pc
         case Idle => true
         case Expired => false
         case Locking | Testing | Registered | Counting => peer == None
         case TimedOut => peer == None && th.kind == Timed
         case Blocked =>
           if peer == None then s.waiter == Some(t)
           else s.mutex.Some? && s.mutex.value < |s.threads| && Serving(s.threads[s.mutex.value].pc)
         case Woken | Resumed | CopyingIn | CopyingOut | Clearing | Signalling => peer.Some?
         case Unlocking | Returning => peer.Some? || th.kind == Timed
  }

  ghost predicate Standing(s: State) {
    && SlotOk(s)
    && (forall t | 0 <= t < |s.threads| :: Placed(s, t))
    && (forall u, w | 0 <= u < |s.threads| && 0 <= w < |s.threads| ::
          s.threads[u].pc == Blocked && s.threads[w].pc == Blocked ==> u == w)
  }

  lemma InvPlaces(s: State, t: nat)
    requires Inv(s) && t < |s.threads|
    ensures Placed(s, t)
  {
    hide Copies, AllCopyable, OnTop, HasArgs, HasArgsAndCount, OutcomeOk, PartnersOk, PeersOk;
    assert ThreadOk(s, t);
    hide Inv;
  }

  lemma InvStands(s: State)
    requires Inv(s)
    ensures Standing(s) && CallsOk(s)
  {
    hide Placed, ThreadOk, OutcomeOk, PartnersOk, PeersOk, CallsOk, SlotOk;
    forall t | 0 <= t < |s.threads| ensures Placed(s, t) {
      InvPlaces(s, t);
    }
    forall u, w | 0 <= u < |s.threads| && 0 <= w < |s.threads|
      ensures s.threads[u].pc == Blocked && s.threads[w].pc == Blocked ==> u == w
    {
      if s.threads[u].pc == Blocked && s.threads[w].pc == Blocked {
        OneBlocked(s, u, w);
      }
    }
  }

  /** Who has a partner, or is bound to meet one, stays so to the end of the call. */
  lemma MatchedStays(s: State, s': State, v: nat, t: nat)
    requires Standing(s) && Moves(s, s', v) && Matched(s, t)
    ensures Matched(s', t) || s'.threads[t].pc == Idle
  {
  }

  /** Nobody comes to want a partner who did not before. */
  lemma SeeksBack(s: State, s': State, v: nat, u: nat)
    requires Standing(s) && Moves(s, s', v) && Seeks(s', u)
    ensures Seeks(s, u)
  {
  }

  /** While the mutex is free, who is about to lock it or sits in the slot has no partner in sight. */
  lemma FreeSeeks(s: State, u: nat)
    requires Standing(s) && s.mutex == None && u < |s.threads|
    requires s.threads[u].pc == Locking || s.waiter == Some(u)
    ensures Seeks(s, u)
  {
    assert Placed(s, u);
  }

  /** One untimed call that wants a partner nobody else wants to be stays as it is. */
  lemma LoneStays(s: State, s': State, v: nat, t: nat)
    requires Standing(s) && Moves(s, s', v) && Seeks(s, t) && s.threads[t].kind == Plain
    requires !SomeoneElseSeeks(s, t)
    ensures Seeks(s', t) && !SomeoneElseSeeks(s', t)
  {
    if s.mutex == None && s.waiter.Some? {
      FreeSeeks(s, s.waiter.value);
      if s.threads[v].pc == Locking {
        FreeSeeks(s, v);
      }
    }
    forall u: nat | u < |s'.threads| && u != t ensures !Seeks(s', u) {
      if Seeks(s', u) {
        SeeksBack(s, s', v, u);
      }
    }
    assert Placed(s, t) && Placed(s, v);
    hide Seeks;
    if s.mutex == Some(v) {
      HolderKeeps(s, s', v, t);
    } else {
      FreeKeeps(s, s', v, t);
    }
  }

  /** The mutex holder takes no partner from those who have none in sight. */
  lemma HolderKeeps(s: State, s': State, v: nat, u: nat)
    requires Standing(s) && Moves(s, s', v) && s.mutex == Some(v) && Seeks(s, u)
    ensures Seeks(s', u)
  {
    assert Placed(s, u) && Placed(s, v);
    if s.waiter.Some? {
      assert Placed(s, s.waiter.value);
    }
  }

  /** ... nor does anybody else, except by finding a waiter. */
  lemma FreeKeeps(s: State, s': State, v: nat, u: nat)
    requires Standing(s) && Moves(s, s', v) && s.mutex != Some(v) && Seeks(s, u) && s.threads[u].kind == Plain
    requires s.mutex == None && s.threads[v].pc == Locking ==> s.waiter == None
    ensures Seeks(s', u)
  {
    assert Placed(s, u) && Placed(s, v);
  }
}
