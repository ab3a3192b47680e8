/** When can a thread that saw INIT come to read a buffer the kernel holds? */
module AioRace {
  import opened AioProtocol
  import opened AioProof
  import opened AioTheorems

  /** Thread t has seen that block b is INIT and is about to read its buffer. */
  ghost predicate AboutToRead(run: seq<State>, t: nat, b: nat) {
    && Run(run)
    && var s := run[|run| - 1];
       && t < |s.threads| && s.threads[t] == ReadBuffer(b)
       && b < |s.blocks| && s.blocks[b].state == Init
  }

  /** The run can go on, t still about to read, until the kernel holds the buffer. */
  ghost predicate Meets(run: seq<State>, run': seq<State>, t: nat, b: nat)
    requires |run| > 0
  {
    && run <= run' && Reading(run', |run| - 1, |run'| - 1, t, b)
    && run'[|run'| - 1].blocks[b].kernel != NoRequest
  }

  /** Some other thread has a userdata for the block. */
  predicate OtherOwner(s: State, t: nat, b: nat)
    requires b < |s.blocks|
  {
    exists u <- s.blocks[b].owners :: u != t
  }

  ghost predicate MayMeet(run: seq<State>, t: nat, b: nat)
    requires |run| > 0
  {
    exists run' {:trigger Meets(run, run', t, b)} :: Meets(run, run', t, b)
  }

  /** In step k thread u gets a userdata for the block. */
  ghost predicate Gains(run: seq<State>, k: nat, u: nat, b: nat)
    requires k + 1 < |run|
  {
    u < |run[k].threads| && (Retain(run[k], run[k + 1], u, b) || DoAdopt(run[k], run[k + 1], u, b))
  }

  /** From state i on, no thread but t does. */
  ghost predicate NobodyGains(run: seq<State>, i: nat, t: nat, b: nat) {
    forall k: nat, u: nat | i <= k < |run| - 1 && u != t :: !Gains(run, k, u, b)
  }

  /** ... and meanwhile the block is shared no further. */
  ghost predicate MeetsUnshared(run: seq<State>, run': seq<State>, t: nat, b: nat)
    requires |run| > 0
  {
    Meets(run, run', t, b) && NobodyGains(run', |run| - 1, t, b)
  }

  ghost predicate MayMeetUnshared(run: seq<State>, t: nat, b: nat)
    requires |run| > 0
  {
    exists run' {:trigger MeetsUnshared(run, run', t, b)} :: MeetsUnshared(run, run', t, b)
  }

  // --- any thread in the middle of an operation can get to its end ---

  /** What u does next if everything it submits or reaps fails. */
  function Onward(s: State, u: nat): State
    requires u < |s.threads| && !s.threads[u].Idle? && s.threads[u].b < |s.blocks|
  {
    var pc, c := s.threads[u], s.threads[u].b;
    var k := s.blocks[c];
    match pc
    case Idle => s
    case RetryInit(_) =>
      if k.state == Init then Update(s, u, Submit(c, Init), c, k.(state := Pending)) else Move(s, u, Idle)
    case Submit(_, last) => Move(s, u, Rollback(c, last))
    case Rollback(_, last) => Update(s, u, Idle, c, k.(state := last))
    case Reap(_) => Update(s, u, LoadSaved(c), c, if k.kernel == Done then k.(kernel := NoRequest) else k)
    case LoadSaved(_) => Move(s, u, Rollback(c, k.saved))
    case CommitSaved(_) => Update(s, u, CommitState(c), c, k.(saved := Init))
    case CommitState(_) => Update(s, u, Idle, c, k.(state := Init))
    case Adopt(_, ok) =>
      var next := if ok then CommitSaved(c) else LoadSaved(c);
      Update(s, u, next, c, k.(refs := k.refs + 1, owners := k.owners + multiset{u}))
    case ReadBuffer(_) => Move(s, u, Idle)
    case FreeLoad(_) => Move(s, u, if k.state == Pending then FreeCancel(c) else FreeMemory(c))
    case FreeCancel(_) =>
      Update(s, u, FreeReap(c), c, k.(kernel := if k.kernel == InProgress then Done else k.kernel))
    case FreeReap(_) => Update(s, u, FreeMemory(c), c, k.(kernel := if k.kernel == Done then NoRequest else k.kernel))
    case FreeMemory(_) => Update(s, u, Idle, c, k.(freed := true))
  }

  function Rank(pc: Pc): nat {
    match pc
    case Idle => 0
    case Rollback(_, _) | CommitState(_) | ReadBuffer(_) | FreeMemory(_) => 1
    case Submit(_, _) | LoadSaved(_) | CommitSaved(_) | FreeReap(_) => 2
    case RetryInit(_) | Reap(_) | Adopt(_, _) | FreeCancel(_) => 3
    case FreeLoad(_) => 4
  }

  lemma OnwardIsStep(s: State, u: nat)
    requires u < |s.threads| && !s.threads[u].Idle? && s.threads[u].b < |s.blocks|
    ensures ThreadStep(s, Onward(s, u), u, s.threads[u].b)
    ensures var s' := Onward(s, u);
            && |s'.threads| == |s.threads| && |s'.blocks| == |s.blocks|
            && Rank(s'.threads[u]) < Rank(s.threads[u])
            && (forall v | 0 <= v < |s.threads| && v != u :: s'.threads[v] == s.threads[v])
            && (forall b | 0 <= b < |s.blocks| && b != s.threads[u].b :: s'.blocks[b] == s.blocks[b])
            && (s.threads[u].ReadBuffer? ==> s'.blocks == s.blocks)
  {
    var s', c := Onward(s, u), s.threads[u].b;
    match s.threads[u]
    case Submit(_, _) => assert DoSubmit(s, s', u, c, false);
    case Reap(_) => assert DoReap(s, s', u, c, false);
    case _ =>
  }

  lemma Extended(run: seq<State>, s': State, u: nat, c: nat)
    requires Run(run) && u < |run[|run| - 1].threads| && ThreadStep(run[|run| - 1], s', u, c)
    ensures Run(run + [s'])
  {
    hide ThreadStep;
    assert Next(run[|run| - 1], s');
  }

  /** From state i on, t is about to read the block, and its references stay as they are. */
  ghost predicate Undisturbed(run: seq<State>, i: nat, t: nat, b: nat) {
    && (forall k | i <= k < |run| :: t < |run[k].threads| && b < |run[k].blocks| && run[k].threads[t] == ReadBuffer(b))
    && forall k | i <= k < |run| - 1 :: run[k + 1].blocks[b].refs == run[k].blocks[b].refs
  }

  lemma StaysUndisturbed(run: seq<State>, s': State, i: nat, t: nat, b: nat)
    requires i < |run| && Undisturbed(run, i, t, b) && t < |s'.threads| && b < |s'.blocks|
    requires s'.threads[t] == ReadBuffer(b) && s'.blocks[b].refs == run[|run| - 1].blocks[b].refs
    ensures Undisturbed(run + [s'], i, t, b)
  {
  }

  lemma NoGain(run: seq<State>, i: nat, t: nat, b: nat)
    requires Undisturbed(run, i, t, b)
    ensures NobodyGains(run, i, t, b)
  {
    forall k: nat, u: nat | i <= k < |run| - 1 && u != t ensures !Gains(run, k, u, b) {
      assert run[k + 1].blocks[b].refs == run[k].blocks[b].refs;
    }
  }

  /** What another thread may be doing with a block that is INIT and has a userdata. */
  lemma MayBeAt(s: State, t: nat, u: nat, b: nat)
    requires Inv(s) && t < |s.threads| && s.threads[t] == ReadBuffer(b) && b < |s.blocks| && s.blocks[b].state == Init
    requires u < |s.threads| && !s.threads[u].Idle?
    ensures s.threads[u].b < |s.blocks|
    ensures s.threads[u].b == b ==> s.threads[u].RetryInit? || s.threads[u].ReadBuffer?
    ensures t in s.blocks[b].owners && s.blocks[b].refs > 0
  {
    assert ThreadOk(s, t) && ThreadOk(s, u) && BlockOk(s, b);
  }

  lemma DriveOnce(run: seq<State>, t: nat, u: nat, b: nat, i: nat) returns (s': State)
    requires AboutToRead(run, t, b) && u < |run[|run| - 1].threads| && u != t
    requires i < |run| && Undisturbed(run, i, t, b)
    requires run[|run| - 1].threads[u] !in {Idle, RetryInit(b)}
    ensures AboutToRead(run + [s'], t, b) && Undisturbed(run + [s'], i, t, b)
    ensures var s := run[|run| - 1];
            && |s'.threads| == |s.threads| && b < |s.blocks| == |s'.blocks| && s'.blocks[b] == s.blocks[b]
            && Rank(s'.threads[u]) < Rank(s.threads[u])
  {
    var s := run[|run| - 1];
    RunInv(run, |run| - 1);
    MayBeAt(s, t, u, b);
    OnwardIsStep(s, u);
    s' := Onward(s, u);
    hide Onward, Rank, Inv, ThreadStep;
    Extended(run, s', u, s.threads[u].b);
    hide Run;
    StaysUndisturbed(run, s', i, t, b);
  }

  /** Another thread finishes what it is doing, unless that is already the second swap of a read of b. */
  lemma {:induction false} Drive(run: seq<State>, t: nat, u: nat, b: nat, i: nat) returns (run': seq<State>)
    requires AboutToRead(run, t, b) && u < |run[|run| - 1].threads| && u != t
    requires i < |run| && Undisturbed(run, i, t, b)
    ensures run <= run' && AboutToRead(run', t, b) && Undisturbed(run', i, t, b)
    ensures var s, s' := run[|run| - 1], run'[|run'| - 1];
            && |s'.threads| == |s.threads| && b < |s.blocks| && s'.blocks[b] == s.blocks[b]
            && s'.threads[u] in {Idle, RetryInit(b)}
    decreases Rank(run[|run| - 1].threads[u])
  {
    if run[|run| - 1].threads[u] in {Idle, RetryInit(b)} {
      return run;
    }
    var s' := DriveOnce(run, t, u, b, i);
    hide Undisturbed, Rank, Run;
    run' := Drive(run + [s'], t, u, b, i);
  }

  /** From there, once it has a userdata, it can hand the buffer to the kernel. */
  lemma CanSubmit(run: seq<State>, t: nat, u: nat, b: nat, i: nat) returns (run': seq<State>)
    requires AboutToRead(run, t, b) && u < |run[|run| - 1].threads| && u != t
    requires i < |run| && Undisturbed(run, i, t, b)
    requires run[|run| - 1].threads[u] in {Idle, RetryInit(b)} && u in run[|run| - 1].blocks[b].owners
    ensures run <= run' && Run(run') && Undisturbed(run', i, t, b)
    ensures run'[|run'| - 1].blocks[b].kernel == InProgress
  {
    var s := run[|run| - 1];
    var m, s' := SubmitSteps(s, u, b);
    hide Run, Undisturbed, ThreadStep;
    Extended(run, m, u, b);
    StaysUndisturbed(run, m, i, t, b);
    Extended(run + [m], s', u, b);
    StaysUndisturbed(run + [m], s', i, t, b);
    run' := run + [m] + [s'];
  }

  lemma SubmitSteps(s: State, u: nat, b: nat) returns (m: State, s': State)
    requires u < |s.threads| && b < |s.blocks| && s.blocks[b].state == Init
    requires s.threads[u] in {Idle, RetryInit(b)} && u in s.blocks[b].owners
    ensures ThreadStep(s, m, u, b) && ThreadStep(m, s', u, b)
    ensures |m.threads| == |s.threads| == |s'.threads| && |m.blocks| == |s.blocks| == |s'.blocks|
    ensures forall v | 0 <= v < |s.threads| && v != u :: m.threads[v] == s'.threads[v] == s.threads[v]
    ensures m.blocks[b].refs == s'.blocks[b].refs == s.blocks[b].refs && s'.blocks[b].kernel == InProgress
  {
    m := Update(s, u, Submit(b, Init), b, s.blocks[b].(state := Pending));
    assert TryWrite(s, m, u, b);
    s' := Update(m, u, Idle, b, m.blocks[b].(kernel := InProgress));
    assert DoSubmit(m, s', u, b, true);
  }

  /** Whoever else has a userdata can. */
  lemma OtherOwnerRaces(run: seq<State>, t: nat, u: nat, b: nat) returns (run': seq<State>)
    requires AboutToRead(run, t, b) && u != t && u in run[|run| - 1].blocks[b].owners
    requires u < |run[|run| - 1].threads|
    ensures MeetsUnshared(run, run', t, b)
  {
    run' := Drive(run, t, u, b, |run| - 1);
    run' := CanSubmit(run', t, u, b, |run| - 1);
    NoGain(run', |run| - 1, t, b);
    assert run'[|run| - 1] == run[|run| - 1];
  }

  // --- and nobody else can ---

  /** A userdata for b is only ever made by `retain` or `aio_waitcomplete`, for the thread that calls it. */
  lemma StepOwners(s: State, s': State, t: nat, c: nat, b: nat, u: nat)
    requires t < |s.threads| && ThreadStep(s, s', t, c) && b < |s.blocks|
    ensures |s'.threads| == |s.threads| && |s'.blocks| == |s.blocks|
    ensures u in s'.blocks[b].owners && u !in s.blocks[b].owners ==>
              u == t && (Retain(s, s', t, b) || DoAdopt(s, s', t, b))
  {
    if !Retain(s, s', t, c) && !DoAdopt(s, s', t, c) && !Release(s, s', t, c) {
      hide Retain, DoAdopt, Release;
      OtherStepsKeepOwners(s, s', t, c, b);
    }
  }

  lemma OtherStepsKeepOwners(s: State, s': State, t: nat, c: nat, b: nat)
    requires t < |s.threads| && ThreadStep(s, s', t, c) && b < |s.blocks|
    requires !Retain(s, s', t, c) && !DoAdopt(s, s', t, c) && !Release(s, s', t, c)
    ensures |s'.threads| == |s.threads| && |s'.blocks| == |s.blocks| && s'.blocks[b].owners == s.blocks[b].owners
  {
    hide Retain, DoAdopt, Release;
  }

  lemma NextOwners(run: seq<State>, k: nat, b: nat, u: nat)
    requires Run(run) && k + 1 < |run| && b < |run[k].blocks|
    ensures |run[k + 1].threads| == |run[k].threads| && b < |run[k + 1].blocks|
    ensures u in run[k + 1].blocks[b].owners && u !in run[k].blocks[b].owners ==> Gains(run, k, u, b)
  {
    hide ThreadStep, Retain, DoAdopt;
    var s, s' := run[k], run[k + 1];
    assert Next(s, s');
    if t: nat, c: nat :| t < |s.threads| && ThreadStep(s, s', t, c) {
      StepOwners(s, s', t, c, b, u);
    }
  }

  /** Every owner is a thread. */
  lemma {:induction false} OwnersAreThreads(run: seq<State>, k: nat, b: nat, u: nat)
    requires Run(run) && k < |run| && b < |run[k].blocks| && u in run[k].blocks[b].owners
    ensures u < |run[k].threads|
    decreases k
  {
    hide ThreadStep, Retain, DoAdopt;
    if k > 0 {
      assert Next(run[k - 1], run[k - 1 + 1]);
      if b < |run[k - 1].blocks| {
        NextOwners(run, k - 1, b, u);
        if u in run[k - 1].blocks[b].owners {
          OwnersAreThreads(run, k - 1, b, u);
        }
      } else {
        NewBlockOwner(run[k - 1], run[k], b, u);
      }
    }
  }

  lemma NewBlockOwner(s: State, s': State, b: nat, u: nat)
    requires Next(s, s') && |s.blocks| <= b < |s'.blocks| && u in s'.blocks[b].owners
    ensures u < |s'.threads|
  {
    if t: nat, c: nat :| t < |s.threads| && ThreadStep(s, s', t, c) {
      StepShape(s, s', t, c);
      assert false;
    }
  }

  /** While nobody else gets a userdata, t's are the only ones. */
  lemma {:induction false} OwnersStay(run: seq<State>, i: nat, k: nat, t: nat, b: nat, u: nat)
    requires Run(run) && i <= k < |run| && NobodyGains(run, i, t, b)
    requires b < |run[i].blocks| && forall v <- run[i].blocks[b].owners :: v == t
    ensures b < |run[k].blocks| && (u in run[k].blocks[b].owners ==> u == t)
    decreases k
  {
    hide Run, Gains;
    if i < k {
      OwnersStay(run, i, k - 1, t, b, u);
      NextOwners(run, k - 1, b, u);
      assert u != t ==> !Gains(run, k - 1, u, b);
    }
  }

  /**
   As long as no other thread is given a userdata, a thread that saw INIT may come to read a buffer
   the kernel holds exactly when some other thread already has one when the check is made.
   */
  lemma RaceNeedsAnotherOwner(run: seq<State>, t: nat, b: nat)
    requires AboutToRead(run, t, b)
    ensures MayMeetUnshared(run, t, b)
       <==> OtherOwner(run[|run| - 1], t, b)
  {
    var i := |run| - 1;
    var s := run[i];
    if u :| u in s.blocks[b].owners && u != t {
      OwnersAreThreads(run, i, b, u);
      var run' := OtherOwnerRaces(run, t, u, b);
    } else if MayMeetUnshared(run, t, b) {
      var run' :| MeetsUnshared(run, run', t, b);
      SoleOwnerIsSafe(run, run', t, b);
    }
  }

  lemma SoleOwnerIsSafe(run: seq<State>, run': seq<State>, t: nat, b: nat)
    requires |run| > 0 && MeetsUnshared(run, run', t, b)
    ensures OtherOwner(run[|run| - 1], t, b)
  {
    var i, j := |run| - 1, |run'| - 1;
    assert run'[i] == run[i];
    if !OtherOwner(run[i], t, b) {
      forall k, u | i <= k < j && u in run'[k].blocks[b].owners ensures u == t {
        OwnersStay(run', i, k, t, b, u);
      }
      SoleOwnerReadsSafely(run', i, j, t, b);
    }
  }

  /** Where userdata may be handed out freely, any other thread will do. */
  lemma RaceNeedsAnotherThread(run: seq<State>, t: nat, b: nat)
    requires AboutToRead(run, t, b)
    ensures MayMeet(run, t, b) <==> |run[|run| - 1].threads| > 1
  {
    var i := |run| - 1;
    if |run[i].threads| > 1 {
      var u := if t == 0 then 1 else 0;
      var run' := OtherThreadRaces(run, t, u, b);
    } else if MayMeet(run, t, b) {
      var run' :| Meets(run, run', t, b);
      var j := |run'| - 1;
      assert run'[i] == run[i];
      BufferRace(run', i, j, t, b);
      var k: nat, u: nat :| i <= k < j && OutSince(run', k, j, u, t, b);
      SameThreads(run', i, k);
    }
  }

  lemma {:induction false} SameThreads(run: seq<State>, i: nat, k: nat)
    requires Run(run) && i <= k < |run|
    ensures |run[k].threads| == |run[i].threads|
    decreases k
  {
    hide ThreadStep;
    if i < k {
      SameThreads(run, i, k - 1);
      var s, s' := run[k - 1], run[k];
      assert Next(s, run[k - 1 + 1]);
      if t: nat, c: nat :| t < |s.threads| && ThreadStep(s, s', t, c) {
        StepShape(s, s', t, c);
      }
    }
  }

  lemma StepShape(s: State, s': State, t: nat, c: nat)
    requires t < |s.threads| && ThreadStep(s, s', t, c)
    ensures |s'.threads| == |s.threads| && |s'.blocks| == |s.blocks|
  {
  }

  /** The userdata is handed to another thread, which comes to refer to the block too. */
  lemma GainsReference(s: State, t: nat, u: nat, b: nat) returns (s': State)
    requires Inv(s) && t < |s.threads| && s.threads[t] == ReadBuffer(b) && b < |s.blocks|
    requires u < |s.threads| && s.threads[u] == Idle
    ensures ThreadStep(s, s', u, b)
    ensures var k := s.blocks[b];
            s' == Update(s, u, Idle, b, k.(refs := k.refs + 1, owners := k.owners + multiset{u}))
  {
    assert ThreadOk(s, t);
    var k := s.blocks[b];
    s' := Update(s, u, Idle, b, k.(refs := k.refs + 1, owners := k.owners + multiset{u}));
    assert Retain(s, s', u, b);
  }

  lemma OtherThreadRaces(run: seq<State>, t: nat, u: nat, b: nat) returns (run': seq<State>)
    requires AboutToRead(run, t, b) && u != t && u < |run[|run| - 1].threads|
    ensures Meets(run, run', t, b)
  {
    var i := |run| - 1;
    run' := Drive(run, t, u, b, i);
    var s := run'[|run'| - 1];
    RunInv(run', |run'| - 1);
    hide ThreadStep, Next;
    if s.threads[u] == Idle {
      var s' := GainsReference(s, t, u, b);
      Extended(run', s', u, b);
      run' := run' + [s'];
      var from := |run'| - 1;
      run' := CanSubmit(run', t, u, b, from);
    } else {
      assert ThreadOk(s, u);
      run' := CanSubmit(run', t, u, b, i);
    }
    assert run'[i] == run[i];
  }
}
