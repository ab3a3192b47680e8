/** Every call comes to its end: how far it can get by itself, and exactly when it needs others. */
module RendezvousEnds {
  import opened Wrappers
  import opened Lua
  import opened DeepCopy
  import opened Exchange
  import opened Rendezvous
  import opened RendezvousProof
  import opened RendezvousTheorems
  import opened RendezvousProgress
  import opened RendezvousCourse

  /** run' goes on from where run stands, and no further call begins. */
  ghost predicate Continues(run: seq<State>, run': seq<State>)
    requires |run| > 0
  {
    run <= run' && Run(ASSUMED, run') && |run'[|run'| - 1].calls| == |run[|run| - 1].calls|
  }

  /** No call in progress can go on. */
  ghost predicate Still(s: State) {
    forall t :: !CanStep(s, t)
  }

  predicate Ended(s: State, c: nat) {
    c < |s.calls| && s.calls[c].outcome != Running
  }

  // --- calls without newcomers come to an end ---

  /** How many steps a thread can still take in its call. */
  function Rank(pc: Pc): nat {
    match pc
    case Idle => 0
    case Returning => 1
    case Unlocking => 2
    case Signalling | Resumed | TimedOut => 3
    case Clearing | Woken | Expired => 4
    case CopyingOut | Blocked => 5
    case CopyingIn | Registered => 6
    case Counting => 7
    case Testing => 8
    case Locking => 9
  }

  function StepsLeft(threads: seq<Thread>): nat {
    if threads == [] then 0 else Rank(threads[0].pc) + StepsLeft(threads[1..])
  }

  lemma {:induction false} StepsLeftBound(threads: seq<Thread>)
    ensures StepsLeft(threads) <= 9 * |threads|
  {
    if threads != [] {
      StepsLeftBound(threads[1..]);
    }
  }

  lemma {:induction false} StepsLeftMonotone(before: seq<Thread>, after: seq<Thread>)
    requires |before| == |after| && forall u | 0 <= u < |before| :: Rank(after[u].pc) <= Rank(before[u].pc)
    ensures StepsLeft(after) <= StepsLeft(before)
  {
    if before != [] {
      StepsLeftMonotone(before[1..], after[1..]);
    }
  }

  lemma {:induction false} StepsLeftFalls(before: seq<Thread>, after: seq<Thread>, t: nat)
    requires |before| == |after| && forall u | 0 <= u < |before| :: Rank(after[u].pc) <= Rank(before[u].pc)
    requires t < |before| && Rank(after[t].pc) < Rank(before[t].pc)
    ensures StepsLeft(after) < StepsLeft(before)
  {
    if t == 0 {
      StepsLeftMonotone(before[1..], after[1..]);
    } else {
      StepsLeftFalls(before[1..], after[1..], t - 1);
    }
  }

  lemma MovesDescend(s: State, s': State, t: nat)
    requires Moves(s, s', t)
    ensures StepsLeft(s'.threads) < StepsLeft(s.threads)
  {
    hide Binds;
    StepsLeftFalls(s.threads, s'.threads, t);
  }

  lemma BeginAdds(s: State, s': State, t: nat, kind: Kind, frame: seq<Value>)
    requires t < |s.threads| && Begin(s, s', t, kind, frame)
    ensures |s'.threads| == |s.threads| && SameArgs(s.calls, s'.calls) && |s'.calls| == |s.calls| + 1
  {
  }

  lemma NextMoves(s: State, s': State)
    requires Next(ASSUMED, s, s')
    ensures |s'.threads| == |s.threads| && SameArgs(s.calls, s'.calls)
    ensures |s'.calls| > |s.calls| || exists t :: Moves(s, s', t)
  {
    hide Step, Course, Begin, SameArgs;
    var t: nat :| t < |s.threads| && Step(ASSUMED, s, s', t);
    StepMoves(s, s', t);
    if !Moves(s, s', t) {
      var kind, frame :| Begin(s, s', t, kind, frame);
      BeginAdds(s, s', t, kind, frame);
    }
  }

  lemma SameArgsThrough(calls: seq<Call>, calls': seq<Call>, calls'': seq<Call>)
    requires SameArgs(calls, calls') && SameArgs(calls', calls'')
    ensures SameArgs(calls, calls'')
  {
  }

  lemma {:induction false} KeepsCalls(run: seq<State>, i: nat)
    requires Run(ASSUMED, run) && i < |run|
    ensures |run[|run| - 1].threads| == |run[i].threads| && SameArgs(run[i].calls, run[|run| - 1].calls)
    decreases |run|
  {
    hide Next;
    var n := |run| - 1;
    if i < n {
      assert Run(ASSUMED, run[..n]) && Next(ASSUMED, run[n - 1], run[n]);
      hide Run, SameArgs;
      KeepsCalls(run[..n], i);
      NextMoves(run[n - 1], run[n]);
      SameArgsThrough(run[i].calls, run[n - 1].calls, run[n].calls);
    }
  }

  /** The last step of a continuation. */
  lemma LastMove(run: seq<State>, run': seq<State>) returns (t: nat)
    requires Run(ASSUMED, run) && Continues(run, run') && |run| < |run'|
    ensures var n := |run'| - 1;
            && Continues(run, run'[..n]) && Moves(run'[n - 1], run'[n], t)
            && Standing(run'[n - 1]) && CallsOk(run'[n - 1]) && CallsOk(run'[n])
  {
    var n := |run'| - 1;
    hide Next, Inv, Moves;
    KeepsCalls(run'[..n], |run| - 1);
    NextMoves(run'[n - 1], run'[n]);
    RunInv(run', n);
    RunInv(run', n - 1);
    InvStands(run'[n - 1]);
    InvStands(run'[n]);
    t :| Moves(run'[n - 1], run'[n], t);
  }

  /** Without new calls there are at most nine more steps for each thread. */
  lemma FewSteps(run: seq<State>, run': seq<State>)
    requires Run(ASSUMED, run) && Continues(run, run')
    ensures |run'| <= |run| + 9 * |run[|run| - 1].threads|
  {
    StepsSpent(run, run');
    StepsLeftBound(run[|run| - 1].threads);
  }

  lemma {:induction false} StepsSpent(run: seq<State>, run': seq<State>)
    requires Run(ASSUMED, run) && Continues(run, run')
    ensures |run'| - |run| <= StepsLeft(run[|run| - 1].threads) - StepsLeft(run'[|run'| - 1].threads)
    decreases |run'|
  {
    hide Next, Moves, Standing, CallsOk;
    assert |run| > 0;
    hide Run;
    if |run| < |run'| {
      var n := |run'| - 1;
      var t := LastMove(run, run');
      StepsSpent(run, run'[..n]);
      MovesDescend(run'[n - 1], run'[n], t);
    } else {
      assert run == run';
    }
  }

  lemma GoOn(run: seq<State>, s': State, t: nat) returns (run': seq<State>)
    requires Run(ASSUMED, run) && t < |run[|run| - 1].threads| && run[|run| - 1].threads[t].pc != Idle
    requires Step(ASSUMED, run[|run| - 1], s', t)
    ensures run' == run + [s'] && Continues(run, run') && Moves(run[|run| - 1], s', t)
    ensures StepsLeft(s'.threads) < StepsLeft(run[|run| - 1].threads)
  {
    StepMoves(run[|run| - 1], s', t);
    hide Step;
    MovesDescend(run[|run| - 1], s', t);
    hide Run, Course;
    run' := Extend(ASSUMED, run, s', t);
  }

  /** Every run can go on until no call in progress can. */
  lemma {:induction false} RunOn(run: seq<State>) returns (run': seq<State>)
    requires Run(ASSUMED, run)
    ensures Continues(run, run') && Still(run'[|run'| - 1])
    decreases StepsLeft(run[|run| - 1].threads)
  {
    hide Step, Moves, Next;
    var s := run[|run| - 1];
    if t :| CanStep(s, t) {
      var s' :| Step(ASSUMED, s, s', t);
      var next := GoOn(run, s', t);
      hide Run;
      run' := RunOn(next);
    } else {
      run' := run;
    }
  }

  // --- which calls end whatever happens ---

  /** Call c is over, can give up, or has a partner or is bound to meet one. */
  predicate Sure(s: State, c: nat) {
    c < |s.calls| && (Ended(s, c) || s.calls[c].kind == Timed || Matched(s, s.calls[c].thread))
  }

  lemma SureStays(s: State, s': State, v: nat, c: nat)
    requires Standing(s) && CallsOk(s) && CallsOk(s') && Moves(s, s', v) && Sure(s, c)
    ensures Sure(s', c)
  {
    var t := s.calls[c].thread;
    if Matched(s, t) && !Ended(s, c) {
      MatchedStays(s, s', v, t);
    }
  }

  lemma {:induction false} SureToTheEnd(run: seq<State>, run': seq<State>, c: nat)
    requires Run(ASSUMED, run) && Continues(run, run') && Sure(run[|run| - 1], c)
    ensures Sure(run'[|run'| - 1], c)
    decreases |run'|
  {
    hide Next, Moves, Standing, CallsOk;
    assert |run| > 0;
    hide Run, Sure;
    if |run| < |run'| {
      var n := |run'| - 1;
      var t := LastMove(run, run');
      SureToTheEnd(run, run'[..n], c);
      SureStays(run'[n - 1], run'[n], t, c);
    } else {
      assert run == run';
    }
  }

  /** When no call can go on, all are over but possibly one, untimed and unmatched, in the slot. */
  lemma WhoIsLeft(run: seq<State>, c: nat)
    requires Run(ASSUMED, run) && c < |run[|run| - 1].calls| && Still(run[|run| - 1])
    ensures var s := run[|run| - 1];
            Ended(s, c) || (WaitsAlone(s, s.calls[c].thread) && !Sure(s, c))
  {
    var s := run[|run| - 1];
    NoLostWakeup(run, |run| - 1);
    RunInv(run, |run| - 1);
    hide Run, Still, PeersOk, SlotOk, PartnersOk, ThreadOk, OutcomeOk;
    if !Ended(s, c) {
      var w :| WaitsAlone(s, w);
      assert w == s.calls[c].thread;
    }
  }

  /**
   Without newcomers, and in whatever order the threads proceed, a timed call, a call that has a partner
   and a call that is bound to meet one all come to their end, after at most nine steps of each thread.
   */
  lemma SureCallsEnd(run: seq<State>, run': seq<State>, c: nat)
    requires Run(ASSUMED, run) && Sure(run[|run| - 1], c)
    requires Continues(run, run') && Still(run'[|run'| - 1])
    ensures Ended(run'[|run'| - 1], c) && |run'| <= |run| + 9 * |run[|run| - 1].threads|
  {
    assert |run| > 0;
    hide Run, Still, Sure;
    SureToTheEnd(run, run', c);
    FewSteps(run, run');
    assert c < |run'[|run'| - 1].calls| by {
      SureIsCall(run'[|run'| - 1], c);
    }
    WhoIsLeft(run', c);
  }

  lemma SureIsCall(s: State, c: nat)
    requires Sure(s, c)
    ensures c < |s.calls|
  {
  }

  // --- which calls may end, and which cannot ---

  /** Without newcomers, call c may come to its end. */
  ghost predicate MayEnd(run: seq<State>, c: nat)
    requires |run| > 0
  {
    exists run' {:trigger Continues(run, run')} :: Continues(run, run') && Ended(run'[|run'| - 1], c)
  }

  lemma Onward(run: seq<State>, run': seq<State>, run'': seq<State>)
    requires |run| > 0 && Continues(run, run') && Continues(run', run'')
    ensures Continues(run, run'')
  {
    hide Run;
  }

  /** Of two threads that seek, either both still do after a step, or the first has found somebody. */
  lemma TowardsMatch(s: State, t: nat, u: nat) returns (s': State, v: nat)
    requires Inv(s) && Seeks(s, t) && Seeks(s, u) && t != u
    ensures v < |s.threads| && s.threads[v].pc != Idle && Step(ASSUMED, s, s', v)
    ensures Matched(s', t) || (Seeks(s', t) && Seeks(s', u))
  {
    InvStands(s);
    hide CallsOk, Course, Binds, Seeks, Matched, Placed, Step;
    if s.mutex.Some? {
      v := s.mutex.value;
      HolderSteps(s, v);
      hide Inv;
      s' :| Step(ASSUMED, s, s', v);
      StepMoves(s, s', v);
      HolderKeeps(s, s', v, t);
      HolderKeeps(s, s', v, u);
    } else {
      s', v := LockTowardsMatch(s, t, u);
    }
  }

  lemma LockTowardsMatch(s: State, t: nat, u: nat) returns (s': State, v: nat)
    requires Standing(s) && s.mutex == None && Seeks(s, t) && Seeks(s, u) && t != u
    ensures v < |s.threads| && s.threads[v].pc != Idle && Step(ASSUMED, s, s', v)
    ensures Matched(s', t) || (Seeks(s', t) && Seeks(s', u))
  {
    assert Placed(s, t) && Placed(s, u);
    hide CallsOk;
    v := if s.threads[t].pc == Locking then t else u;
    s' := With(s, v, s.threads[v].(pc := Testing)).(mutex := Some(v));
    assert Lock(s, s', v);
  }

  lemma {:induction false} MeetUp(run: seq<State>, t: nat, u: nat) returns (run': seq<State>)
    requires Run(ASSUMED, run) && Seeks(run[|run| - 1], t) && Seeks(run[|run| - 1], u) && t != u
    ensures Continues(run, run') && Matched(run'[|run'| - 1], t)
    decreases StepsLeft(run[|run| - 1].threads)
  {
    hide Step, Moves, Next, Inv, Seeks, Matched;
    RunInv(run, |run| - 1);
    var s', v := TowardsMatch(run[|run| - 1], t, u);
    var next := GoOn(run, s', v);
    run' := next;
    if !Matched(s', t) {
      hide Run;
      run' := MeetUp(next, t, u);
      Onward(run, next, run');
    }
  }

  /** An untimed call that wants a partner when nobody else does. */
  predicate Lone(s: State, t: nat) {
    Seeks(s, t) && s.threads[t].kind == Plain && !SomeoneElseSeeks(s, t)
  }

  lemma {:induction false} LoneToTheEnd(run: seq<State>, run': seq<State>, t: nat)
    requires Run(ASSUMED, run) && Continues(run, run') && Lone(run[|run| - 1], t)
    ensures Lone(run'[|run'| - 1], t) && t < |run[|run| - 1].threads| == |run'[|run'| - 1].threads|
    ensures run'[|run'| - 1].threads[t].call == run[|run| - 1].threads[t].call
    decreases |run'|
  {
    hide Next, Moves, Standing, CallsOk;
    assert |run| > 0;
    hide Run;
    if |run| < |run'| {
      var n := |run'| - 1;
      var v := LastMove(run, run');
      LoneToTheEnd(run, run'[..n], t);
      LoneStep(run'[n - 1], run'[n], v, t);
    } else {
      assert run == run';
    }
  }

  lemma LoneStep(s: State, s': State, v: nat, t: nat)
    requires Standing(s) && Moves(s, s', v) && Lone(s, t)
    ensures Lone(s', t) && |s'.threads| == |s.threads| && s'.threads[t].call == s.threads[t].call
  {
    assert t < |s.threads|;
    hide Seeks, SomeoneElseSeeks, Standing;
    LoneStays(s, s', v, t);
  }

  lemma LoneNeverEnds(run: seq<State>, run': seq<State>, c: nat)
    requires Run(ASSUMED, run) && Continues(run, run') && c < |run[|run| - 1].calls|
    requires var s := run[|run| - 1]; var t := s.calls[c].thread; Lone(s, t) && s.threads[t].call == c
    ensures !Ended(run'[|run'| - 1], c)
  {
    var t := run[|run| - 1].calls[c].thread;
    hide Next, Inv, CallsOk;
    RunInv(run', |run'| - 1);
    InvStands(run'[|run'| - 1]);
    hide Run;
    LoneToTheEnd(run, run', t);
    assert Placed(run'[|run'| - 1], t);
  }

  /** Once it is sure to end, it may. */
  lemma SureMayEnd(run: seq<State>, c: nat)
    requires Run(ASSUMED, run) && Sure(run[|run| - 1], c)
    ensures MayEnd(run, c)
  {
    hide Next, Sure, Still;
    assert |run| > 0;
    hide Run;
    var run' := RunOn(run);
    SureCallsEnd(run, run', c);
    assert Continues(run, run');
  }

  lemma SeekingMayEnd(run: seq<State>, c: nat, t: nat, u: nat)
    requires Run(ASSUMED, run) && c < |run[|run| - 1].calls| && run[|run| - 1].calls[c].thread == t
    requires Seeks(run[|run| - 1], t) && Seeks(run[|run| - 1], u) && t != u
    ensures MayEnd(run, c)
  {
    hide Next, Seeks, Matched;
    var met := MeetUp(run, t, u);
    KeepsCalls(met, |run| - 1);
    assert Sure(met[|met| - 1], c);
    hide Sure, Run;
    SureMayEnd(met, c);
    var run' :| Continues(met, run') && Ended(run'[|run'| - 1], c);
    Onward(run, met, run');
    assert Continues(run, run');
  }

  /** An untimed call without a partner in sight is looking for one. */
  lemma UnmatchedSeeks(s: State, c: nat)
    requires Standing(s) && CallsOk(s) && c < |s.calls| && s.calls[c].outcome == Running && s.calls[c].kind == Plain
    ensures var t := s.calls[c].thread;
            && t < |s.threads| && s.threads[t].call == c && s.threads[t].kind == Plain
            && (Matched(s, t) || Seeks(s, t))
  {
    assert Placed(s, s.calls[c].thread);
  }

  /**
   Which calls can end by themselves.  Without newcomers a call may come to its end exactly when it is
   timed, has a partner or is bound to meet one, or some other call still seeks a partner.
   */
  lemma WhoMayEnd(run: seq<State>, c: nat)
    requires Run(ASSUMED, run) && c < |run[|run| - 1].calls| && run[|run| - 1].calls[c].outcome == Running
    ensures var s := run[|run| - 1];
            var t := s.calls[c].thread;
            MayEnd(run, c) <==> s.calls[c].kind == Timed || Matched(s, t) || SomeoneElseSeeks(s, t)
  {
    var s := run[|run| - 1];
    var t := s.calls[c].thread;
    hide Inv, Next;
    RunInv(run, |run| - 1);
    InvStands(s);
    if Sure(s, c) {
      SureMayEnd(run, c);
    } else {
      UnmatchedSeeks(s, c);
      hide Run, Standing, CallsOk, Seeks, Matched;
      if u: nat :| u < |s.threads| && u != t && Seeks(s, u) {
        SeekingMayEnd(run, c, t, u);
      } else {
        forall run' | Continues(run, run') ensures !Ended(run'[|run'| - 1], c) {
          LoneNeverEnds(run, run', c);
        }
      }
    }
  }

  /** run' goes on from where run stands, whoever comes. */
  ghost predicate GoesOn(run: seq<State>, run': seq<State>) {
    run <= run' && Run(ASSUMED, run')
  }

  ghost predicate MayEndWithOthers(run: seq<State>, c: nat) {
    exists run' {:trigger GoesOn(run, run')} :: GoesOn(run, run') && |run'| > 0 && Ended(run'[|run'| - 1], c)
  }

  /** A thread outside a call can always begin one, and then seeks a partner. */
  lemma NewcomerSeeks(s: State, u: nat) returns (s': State)
    requires Standing(s) && u < |s.threads| && s.threads[u].pc == Idle
    ensures Step(ASSUMED, s, s', u) && Seeks(s', u) && |s'.calls| == |s.calls| + 1
    ensures forall c | 0 <= c < |s.calls| :: s'.calls[c] == s.calls[c]
  {
    var frame := [Userdata(0)];
    s' := With(s, u, Thread(Locking, Plain, 0, 0, frame, |s.calls|))
          .(calls := s.calls + [Call(u, Plain, frame, [], None, Running)]);
    assert frame[1..] == [] && Begin(s, s', u, Plain, frame);
  }

  /** Whoever begins a call brings the one that is left to its end. */
  lemma NewcomerHelps(run: seq<State>, c: nat, u: nat)
    requires Run(ASSUMED, run) && c < |run[|run| - 1].calls| && run[|run| - 1].calls[c].outcome == Running
    requires u < |run[|run| - 1].threads| && u != run[|run| - 1].calls[c].thread
    requires run[|run| - 1].threads[u].pc == Idle
    ensures MayEndWithOthers(run, c)
  {
    hide Next, Inv, Standing, Seeks, Matched, Step, MayEnd;
    RunInv(run, |run| - 1);
    InvStands(run[|run| - 1]);
    var s' := NewcomerSeeks(run[|run| - 1], u);
    var joined := Extend(ASSUMED, run, s', u);
    WhoMayEnd(joined, c);
    EndsAnyway(joined, c);
    GoesOnFrom(run, joined, c);
  }

  lemma GoesOnFrom(run: seq<State>, run': seq<State>, c: nat)
    requires run <= run' && MayEndWithOthers(run', c)
    ensures MayEndWithOthers(run, c)
  {
    hide Run;
    var run'' :| GoesOn(run', run'') && |run''| > 0 && Ended(run''[|run''| - 1], c);
    assert GoesOn(run, run'');
  }

  /** Another thread can bring an untimed call to its end. */
  lemma OthersHelp(run: seq<State>, c: nat, u: nat)
    requires Run(ASSUMED, run) && c < |run[|run| - 1].calls| && run[|run| - 1].calls[c].outcome == Running
    requires u < |run[|run| - 1].threads| && u != run[|run| - 1].calls[c].thread
    ensures MayEndWithOthers(run, c)
  {
    hide Next, Still, Sure;
    var still := RunOn(run);
    KeepsCalls(still, |run| - 1);
    WhoIsLeft(still, c);
    if Ended(still[|still| - 1], c) {
      assert GoesOn(run, still);
    } else {
      hide MayEndWithOthers;
      NewcomerHelps(still, c, u);
      GoesOnFrom(run, still, c);
    }
  }

  /** An untimed call of the only thread never ends. */
  lemma NobodyToMeet(run: seq<State>, run': seq<State>, c: nat)
    requires Run(ASSUMED, run) && GoesOn(run, run') && c < |run[|run| - 1].calls|
    requires run[|run| - 1].calls[c].kind == Plain && |run[|run| - 1].threads| <= 1
    ensures !Ended(run'[|run'| - 1], c)
  {
    hide Next, Copies, AllCopyable;
    KeepsCalls(run', |run| - 1);
    RunInv(run', |run'| - 1);
    assert OutcomeOk(run'[|run'| - 1].calls, c);
  }

  /**
   No call is stuck for good.  From every reachable state every call in progress may come to its end,
   with newcomers if need be, exactly if it is timed or there is another thread at all.
   */
  lemma EveryCallMayEnd(run: seq<State>, c: nat)
    requires Run(ASSUMED, run) && c < |run[|run| - 1].calls| && run[|run| - 1].calls[c].outcome == Running
    ensures MayEndWithOthers(run, c) <==> run[|run| - 1].calls[c].kind == Timed || |run[|run| - 1].threads| > 1
  {
    var s := run[|run| - 1];
    hide Next, Inv, Sure, MayEnd;
    if |s.threads| > 1 {
      OthersHelp(run, c, if s.calls[c].thread == 0 then 1 else 0);
    } else if s.calls[c].kind == Timed {
      WhoMayEnd(run, c);
      EndsAnyway(run, c);
    } else if run' :| GoesOn(run, run') && |run'| > 0 && Ended(run'[|run'| - 1], c) {
      NobodyToMeet(run, run', c);
    }
  }

  lemma EndsAnyway(run: seq<State>, c: nat)
    requires |run| > 0 && MayEnd(run, c)
    ensures MayEndWithOthers(run, c)
  {
    hide Run;
    var run' :| Continues(run, run') && Ended(run'[|run'| - 1], c);
    assert GoesOn(run, run');
  }
}
