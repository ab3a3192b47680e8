/** What the AIO protocol guarantees in every run. */
module AioTheorems {
  import opened AioProtocol
  import opened AioProof

  /**
   Ownership.  A request the kernel holds belongs to a live block in state PENDING or RETURNING,
   and a thread about to submit finds a block the kernel does not hold.
   */
  lemma KernelOwnership(run: seq<State>, i: nat, b: nat)
    requires Run(run) && i < |run| && b < |run[i].blocks|
    ensures var k := run[i].blocks[b];
            k.kernel != NoRequest ==> k.state in {Pending, Returning} && !k.freed
    ensures forall t | 0 <= t < |run[i].threads| && run[i].threads[t].Submit? && run[i].threads[t].b == b ::
              run[i].blocks[b].kernel == NoRequest && run[i].blocks[b].state == Pending
  {
    RunInv(run, i);
    assert BlockOk(run[i], b);
    forall t | 0 <= t < |run[i].threads| && run[i].threads[t].Submit? && run[i].threads[t].b == b
      ensures run[i].blocks[b].kernel == NoRequest && run[i].blocks[b].state == Pending
    {
      assert ThreadOk(run[i], t);
    }
  }

  /** Freeing.  When a thread frees a block, nobody and nothing else can still reach it. */
  lemma FreeSafety(run: seq<State>, i: nat, t: nat, b: nat)
    requires Run(run) && i < |run| && t < |run[i].threads| && run[i].threads[t] == FreeMemory(b)
    ensures var s := run[i];
            && b < |s.blocks| && !s.blocks[b].freed
            && s.blocks[b].refs == 0 && s.blocks[b].owners == multiset{}
            && s.blocks[b].kernel == NoRequest
            && forall u | 0 <= u < |s.threads| && u != t :: s.threads[u] == Idle || s.threads[u].b != b
  {
    RunInv(run, i);
    assert ThreadOk(run[i], t);
    assert BlockOk(run[i], b);
  }

  /**
   Nobody touches a freed block, and a block whose references are gone has been freed or is
   being freed by exactly one thread.
   */
  lemma NoUseAfterFree(run: seq<State>, i: nat, b: nat)
    requires Run(run) && i < |run| && b < |run[i].blocks|
    ensures var s := run[i];
            && (s.blocks[b].freed ==>
                  && s.blocks[b].kernel == NoRequest && s.blocks[b].owners == multiset{}
                  && forall t | 0 <= t < |s.threads| :: s.threads[t] == Idle || s.threads[t].b != b)
            && (s.blocks[b].refs == 0 && !s.blocks[b].freed ==>
                  exists t | 0 <= t < |s.threads| ::
                    && s.threads[t] in {FreeLoad(b), FreeCancel(b), FreeReap(b), FreeMemory(b)}
                    && forall u | 0 <= u < |s.threads| && u != t :: s.threads[u] == Idle || s.threads[u].b != b)
  {
    RunInv(run, i);
    var s := run[i];
    assert BlockOk(s, b);
    forall t | 0 <= t < |s.threads| && s.blocks[b].freed ensures !Touches(s.threads[t], b) {
      assert ThreadOk(s, t);
    }
  }

  /** References are counted exactly: one for each live userdata, in whatever Lua state it is. */
  lemma ReferencesCounted(run: seq<State>, i: nat, b: nat)
    requires Run(run) && i < |run| && b < |run[i].blocks|
    ensures run[i].blocks[b].refs == |run[i].blocks[b].owners|
  {
    RunInv(run, i);
    assert BlockOk(run[i], b);
  }

  /** The transition table in the comment above `enum aiocb_state`. */
  predicate InTable(from: CbState, to: CbState) {
    match from
    case Uninit | Init => to == Pending
    case Pending => to in {Uninit, Init, Returning}
    case Returning => to in {Uninit, Init}
  }

  /** Every step changes a block's state along the table, and `aio_state` only ever from UNINIT to INIT. */
  lemma Transitions(run: seq<State>, i: nat, b: nat)
    requires Run(run) && i + 1 < |run| && b < |run[i].blocks|
    ensures b < |run[i + 1].blocks|
    ensures var k, k' := run[i].blocks[b], run[i + 1].blocks[b];
            && (k'.state == k.state
                || (k.state in {Uninit, Init} && k'.state == Pending)
                || (k.state == Pending && k'.state in {Uninit, Init, Returning})
                || (k.state == Returning && k'.state in {Uninit, Init}))
            && (k'.saved == k.saved || (k.saved == Uninit && k'.saved == Init))
            && (k.freed ==> k' == k)
  {
    hide Inv;
    RunInv(run, i);
    assert Next(run[i], run[i + 1]);
    NextTransition(run[i], run[i + 1], b);
  }

  lemma NextTransition(s: State, s': State, c: nat)
    requires Inv(s) && Next(s, s') && c < |s.blocks|
    ensures c < |s'.blocks|
    ensures var k, k' := s.blocks[c], s'.blocks[c];
            && (k'.state == k.state || InTable(k.state, k'.state))
            && (k'.saved == k.saved || (k.saved == Uninit && k'.saved == Init))
            && (k.freed ==> k' == k)
  {
    hide ThreadStep;
    assert BlockOk(s, c);
    if t: nat, b: nat :| t < |s.threads| && ThreadStep(s, s', t, b) {
      StepTransition(s, s', t, b, c);
    }
  }

  /** A step that begins something on the block. */
  ghost predicate Begins(s: State, s': State, t: nat, b: nat)
    requires t < |s.threads|
  {
    || Retain(s, s', t, b) || TryRead(s, s', t, b) || TryWrite(s, s', t, b) || TryReturn(s, s', t, b)
    || (exists ok :: WaitComplete(s, s', t, b, ok)) || CheckBuffer(s, s', t, b) || Release(s, s', t, b)
  }

  lemma StepTransition(s: State, s': State, t: nat, b: nat, c: nat)
    requires Inv(s) && t < |s.threads| && ThreadStep(s, s', t, b) && c < |s.blocks|
    ensures c < |s'.blocks|
    ensures var k, k' := s.blocks[c], s'.blocks[c];
            && (k'.state == k.state || InTable(k.state, k'.state))
            && (k'.saved == k.saved || (k.saved == Uninit && k'.saved == Init))
            && (k.freed ==> k' == k)
  {
    assert BlockOk(s, c) && ThreadOk(s, t);
    hide Inv, BlockOk, ThreadOk;
    if Begins(s, s', t, b) {
      BeginTransition(s, s', t, b, c);
    } else {
      LaterTransition(s, s', t, b, c);
    }
  }

  lemma BeginTransition(s: State, s': State, t: nat, b: nat, c: nat)
    requires c < |s.blocks| && BlockOk(s, c) && t < |s.threads| && ThreadOk(s, t) && Begins(s, s', t, b)
    ensures c < |s'.blocks|
    ensures var k, k' := s.blocks[c], s'.blocks[c];
            && (k'.state == k.state || InTable(k.state, k'.state))
            && (k'.saved == k.saved || (k.saved == Uninit && k'.saved == Init))
            && (k.freed ==> k' == k)
  {
    hide SomeBusy, SomeFreeing, Adopting;
  }

  lemma LaterTransition(s: State, s': State, t: nat, b: nat, c: nat)
    requires c < |s.blocks| && BlockOk(s, c) && t < |s.threads| && ThreadOk(s, t)
    requires ThreadStep(s, s', t, b) && !Begins(s, s', t, b)
    ensures c < |s'.blocks|
    ensures var k, k' := s.blocks[c], s'.blocks[c];
            && (k'.state == k.state || InTable(k.state, k'.state))
            && (k'.saved == k.saved || (k.saved == Uninit && k'.saved == Init))
            && (k.freed ==> k' == k)
  {
    hide SomeBusy, SomeFreeing, Retain, TryRead, TryWrite, TryReturn, WaitComplete, CheckBuffer, Release;
  }

  /**
   Saved state.  At rest, a block's state is its `aio_state`; a thread that rolls back from its
   local variable stores the very value `aio_state` holds.
   */
  lemma SavedState(run: seq<State>, i: nat, b: nat)
    requires Run(run) && i < |run| && b < |run[i].blocks|
    ensures var k := run[i].blocks[b];
            k.state in {Uninit, Init} ==> k.state == k.saved
    ensures forall t | 0 <= t < |run[i].threads| ::
              var pc := run[i].threads[t];
              (pc.Submit? || pc.Rollback?) && pc.b == b ==> pc.last == run[i].blocks[b].saved
  {
    RunInv(run, i);
    assert BlockOk(run[i], b);
    forall t | 0 <= t < |run[i].threads|
      ensures var pc := run[i].threads[t];
              (pc.Submit? || pc.Rollback?) && pc.b == b ==> pc.last == run[i].blocks[b].saved
    {
      assert ThreadOk(run[i], t);
    }
  }

  // --- reading the buffer ---

  /** Thread t saw INIT in state i and is still about to read the buffer in state j. */
  ghost predicate Reading(run: seq<State>, i: nat, j: nat, t: nat, b: nat) {
    && Run(run) && i <= j < |run|
    && b < |run[i].blocks| && run[i].blocks[b].state == Init
    && forall k | i <= k <= j ::
         t < |run[k].threads| && b < |run[k].blocks| && run[k].threads[t] == ReadBuffer(b)
  }

  /** Step k hands the block to the kernel, for a thread that holds a reference. */
  ghost predicate Accepted(run: seq<State>, k: nat, u: nat, b: nat)
    requires k + 1 < |run|
  {
    && u < |run[k].threads| && b < |run[k].blocks| && DoSubmit(run[k], run[k + 1], u, b, true)
    && u in run[k].blocks[b].owners
  }

  lemma StepHandsOver(s: State, s': State, t: nat, c: nat, b: nat)
    requires t < |s.threads| && ThreadOk(s, t) && ThreadStep(s, s', t, c)
    requires b < |s.blocks| && b < |s'.blocks|
    requires s.blocks[b].kernel == NoRequest && s'.blocks[b].kernel != NoRequest
    ensures DoSubmit(s, s', t, b, true) && t in s.blocks[b].owners
  {
    hide Retain, TryRead, TryWrite, DoRollback, TryReturn, DoReap, DoLoadSaved, DoCommitSaved, DoCommitState,
         WaitComplete, DoAdopt, CheckBuffer, DoReadBuffer, Release, DoFreeLoad, DoFreeCancel, DoFreeReap, DoFreeMemory;
    if ok :| DoSubmit(s, s', t, c, ok) {
      assert ok && c == b;
    } else {
      OtherStepsKeepNone(s, s', t, c, b);
    }
  }

  lemma OtherStepsKeepNone(s: State, s': State, t: nat, c: nat, b: nat)
    requires t < |s.threads| && ThreadStep(s, s', t, c) && !exists ok :: DoSubmit(s, s', t, c, ok)
    requires b < |s.blocks| && b < |s'.blocks| && s.blocks[b].kernel == NoRequest
    ensures s'.blocks[b].kernel == NoRequest
  {
    hide DoSubmit;
  }

  lemma OnlySubmissionsHandOver(s: State, s': State, b: nat) returns (u: nat)
    requires Inv(s) && Next(s, s') && b < |s.blocks| && b < |s'.blocks|
    requires s.blocks[b].kernel == NoRequest && s'.blocks[b].kernel != NoRequest
    ensures u < |s.threads| && DoSubmit(s, s', u, b, true) && u in s.blocks[b].owners
  {
    hide ThreadStep, DoSubmit, BlockOk;
    if t: nat, c: nat :| t < |s.threads| && ThreadStep(s, s', t, c) {
      StepHandsOver(s, s', t, c, b);
      u := t;
    }
  }

  lemma HandOverInRun(run: seq<State>, k: nat, t: nat, b: nat) returns (u: nat)
    requires Run(run) && k + 1 < |run| && b < |run[k].blocks| && b < |run[k + 1].blocks|
    requires run[k].blocks[b].kernel == NoRequest && run[k + 1].blocks[b].kernel != NoRequest
    requires t < |run[k].threads| && run[k].threads[t] == ReadBuffer(b)
    ensures u != t && Accepted(run, k, u, b)
  {
    hide Inv, Next;
    RunInv(run, k);
    assert Next(run[k], run[k + 1]);
    u := OnlySubmissionsHandOver(run[k], run[k + 1], b);
  }

  /** A step of thread v that takes a finished request of the block away from the kernel. */
  ghost predicate ReapsBy(s: State, s': State, v: nat, b: nat)
    requires v < |s.threads|
  {
    || (exists ok :: DoReap(s, s', v, b, ok))
    || (exists ok :: WaitComplete(s, s', v, b, ok))
    || DoFreeReap(s, s', v, b)
  }

  ghost predicate Reaps(s: State, s': State, b: nat) {
    exists v: nat | v < |s.threads| :: ReapsBy(s, s', v, b)
  }

  lemma ReapedIsGone(s: State, s': State, v: nat, b: nat)
    requires v < |s.threads| && ThreadOk(s, v) && ReapsBy(s, s', v, b)
    ensures b < |s'.blocks| && s'.blocks[b].kernel == NoRequest
  {
  }

  /** No other step does. */
  lemma StepStaysHeld(s: State, s': State, t: nat, c: nat, b: nat)
    requires t < |s.threads| && ThreadStep(s, s', t, c) && b < |s.blocks|
    requires s.blocks[b].kernel != NoRequest && !ReapsBy(s, s', t, b)
    ensures b < |s'.blocks| && s'.blocks[b].kernel != NoRequest
  {
    hide Retain, DoReap, WaitComplete, DoFreeReap;
    if ReapsBy(s, s', t, c) {
      if ok :| DoReap(s, s', t, c, ok) {
        OtherKernels(s, s', t, c);
      } else if ok :| WaitComplete(s, s', t, c, ok) {
        OtherKernels(s, s', t, c);
      } else {
        OtherKernels(s, s', t, c);
      }
    } else {
      OtherStepsKeepHeld(s, s', t, c, b);
    }
  }

  lemma OtherKernels(s: State, s': State, t: nat, c: nat)
    requires t < |s.threads| && ReapsBy(s, s', t, c)
    ensures |s'.blocks| == |s.blocks| && forall b | 0 <= b < |s.blocks| && b != c :: s'.blocks[b] == s.blocks[b]
  {
  }

  lemma OtherStepsKeepHeld(s: State, s': State, t: nat, c: nat, b: nat)
    requires t < |s.threads| && ThreadStep(s, s', t, c) && !ReapsBy(s, s', t, c)
    requires b < |s.blocks| && s.blocks[b].kernel != NoRequest
    ensures b < |s'.blocks| && s'.blocks[b].kernel != NoRequest
  {
    hide DoReap, WaitComplete, DoFreeReap;
  }

  lemma StaysHeld(s: State, s': State, b: nat)
    requires Next(s, s') && b < |s.blocks| && s.blocks[b].kernel != NoRequest && !Reaps(s, s', b)
    ensures b < |s'.blocks| && s'.blocks[b].kernel != NoRequest
  {
    hide ThreadStep, ReapsBy;
    if t: nat, c: nat :| t < |s.threads| && ThreadStep(s, s', t, c) {
      StepStaysHeld(s, s', t, c, b);
    }
  }

  /** In step k another thread with a reference submitted, and until state j its request was not reaped. */
  ghost predicate OutSince(run: seq<State>, k: nat, j: nat, u: nat, t: nat, b: nat)
    requires k < j < |run|
  {
    && u != t && Accepted(run, k, u, b)
    && forall m | k < m < j :: !Reaps(run[m], run[m + 1], b)
  }

  /** That happened since the check in state i. */
  ghost predicate HandedOver(run: seq<State>, i: nat, j: nat, t: nat, b: nat)
    requires j < |run|
  {
    exists k: nat, u: nat | i <= k < j :: OutSince(run, k, j, u, t, b)
  }

  lemma AcceptedIsHeld(run: seq<State>, k: nat, u: nat, b: nat)
    requires k + 1 < |run| && Accepted(run, k, u, b)
    ensures b < |run[k + 1].blocks| && run[k + 1].blocks[b].kernel == InProgress
  {
  }

  lemma {:induction false} HeldUntilReaped(run: seq<State>, k: nat, j: nat, u: nat, t: nat, b: nat)
    requires Run(run) && k < j < |run| && OutSince(run, k, j, u, t, b)
    ensures b < |run[j].blocks| && run[j].blocks[b].kernel != NoRequest
    decreases j
  {
    hide Next, Reaps, Accepted, Init0;
    if k + 1 == j {
      AcceptedIsHeld(run, k, u, b);
    } else {
      HeldUntilReaped(run, k, j - 1, u, t, b);
      assert Next(run[j - 1], run[j - 1 + 1]) && !Reaps(run[j - 1], run[j - 1 + 1], b);
      StaysHeld(run[j - 1], run[j], b);
    }
  }

  lemma NotReaped(run: seq<State>, k: nat, b: nat)
    requires Run(run) && k + 1 < |run| && b < |run[k + 1].blocks| && run[k + 1].blocks[b].kernel != NoRequest
    ensures !Reaps(run[k], run[k + 1], b)
  {
    RunInv(run, k);
    assert forall v | 0 <= v < |run[k].threads| :: ThreadOk(run[k], v);
    hide Run, Inv, ReapsBy, ThreadOk;
    var s, s' := run[k], run[k + 1];
    if v: nat :| v < |s.threads| && ReapsBy(s, s', v, b) {
      ReapedIsGone(s, s', v, b);
    }
  }

  /**
   The state check and the read are separate: the read meets a buffer the kernel holds exactly
   when, since the check, another thread with a reference submitted and nobody reaped the request.
   */
  lemma {:induction false} BufferRace(run: seq<State>, i: nat, j: nat, t: nat, b: nat)
    requires Reading(run, i, j, t, b)
    ensures run[j].blocks[b].kernel != NoRequest <==> HandedOver(run, i, j, t, b)
    decreases j
  {
    hide Inv, Next, Accepted, Run, Reaps;
    if run[j].blocks[b].kernel != NoRequest {
      if i == j {
        KernelOwnership(run, i, b);
      } else {
        BufferRace(run, i, j - 1, t, b);
        NotReaped(run, j - 1, b);
        if run[j - 1].blocks[b].kernel == NoRequest {
          var u := HandOverInRun(run, j - 1, t, b);
          assert OutSince(run, j - 1, j, u, t, b);
        } else {
          var k: nat, u: nat :| i <= k < j - 1 && OutSince(run, k, j - 1, u, t, b);
          assert OutSince(run, k, j, u, t, b);
        }
      }
    } else if HandedOver(run, i, j, t, b) {
      var k: nat, u: nat :| i <= k < j && OutSince(run, k, j, u, t, b);
      HeldUntilReaped(run, k, j, u, t, b);
    }
  }

  /** In particular, a thread that holds all the references reads safely. */
  lemma SoleOwnerReadsSafely(run: seq<State>, i: nat, j: nat, t: nat, b: nat)
    requires Reading(run, i, j, t, b)
    requires forall k, u | i <= k < j && u in run[k].blocks[b].owners :: u == t
    ensures run[j].blocks[b].kernel == NoRequest
  {
    BufferRace(run, i, j, t, b);
  }

  function RaceState(k: nat): State {
    var block := Block(Init, Init, 2, multiset{0, 1}, NoRequest, false);
    match k
    case 0 => State([Idle, Idle], [])
    case 1 => State([Idle, Idle], [block.(refs := 1, owners := multiset{0})])
    case 2 => State([Idle, Idle], [block])
    case 3 => State([ReadBuffer(0), Idle], [block])
    case 4 => State([ReadBuffer(0), RetryInit(0)], [block])
    case 5 => State([ReadBuffer(0), Submit(0, Init)], [block.(state := Pending)])
    case _ => State([ReadBuffer(0), Idle], [block.(state := Pending, kernel := InProgress)])
  }

  lemma RaceStep(k: nat)
    requires k < 6
    ensures Next(RaceState(k), RaceState(k + 1))
  {
    var s, s' := RaceState(k), RaceState(k + 1);
    match k {
      case 0 => assert Create(s, s', 0, Init);
      case 1 =>
        assert multiset{0} + multiset{1} == multiset{0, 1};
        assert Retain(s, s', 1, 0) && ThreadStep(s, s', 1, 0);
      case 2 => assert CheckBuffer(s, s', 0, 0) && ThreadStep(s, s', 0, 0);
      case 3 => assert TryRead(s, s', 1, 0) && ThreadStep(s, s', 1, 0);
      case 4 => assert TryWrite(s, s', 1, 0) && ThreadStep(s, s', 1, 0);
      case 5 => assert DoSubmit(s, s', 1, 0, true) && ThreadStep(s, s', 1, 0);
    }
  }

  /** Such a run exists: two threads, one reading `buf` while the other starts a read into it. */
  lemma BufferRaceHappens() returns (run: seq<State>)
    ensures Run(run) && Reading(run, 3, 6, 0, 0) && run[6].blocks[0].kernel == InProgress
    ensures |run| == 7 && run[6] == RaceState(6)
  {
    run := seq(7, k requires 0 <= k < 7 => RaceState(k));
    forall i | 0 <= i < |run| - 1 ensures Next(run[i], run[i + 1]) {
      RaceStep(i);
    }
  }
}
