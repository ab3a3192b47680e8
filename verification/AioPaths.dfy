/**
 Whole operations of the state machine: what the steps of one thread, with nobody in between, make of a
 block.  It is what the functions of aio/lua_aio.c do, whatever the system call answers.
 */
module AioPaths {
  import opened AioProtocol

  /** Consecutive steps of t on block b. */
  ghost predicate Path(path: seq<State>, t: nat, b: nat) {
    && |path| > 0
    && (forall i | 0 <= i < |path| :: t < |path[i].threads| && b < |path[i].blocks|)
    && forall i | 0 <= i < |path| - 1 :: ThreadStep(path[i], path[i + 1], t, b)
  }

  /** They lead to where t is idle, and it is not idle before. */
  ghost predicate Rest(path: seq<State>, t: nat, b: nat) {
    Path(path, t, b) && forall i | 0 <= i < |path| :: path[i].threads[t] == Idle <==> i == |path| - 1
  }

  /** A whole operation, with no step of anybody else in between. */
  ghost predicate Operation(path: seq<State>, t: nat, b: nat) {
    && |path| > 1 && Path(path, t, b) && path[0].threads[t] == Idle && Rest(path[1..], t, b)
  }

  /** The system call is made in this step, with this answer. */
  ghost predicate Call(s: State, s': State, t: nat, b: nat, ok: bool)
    requires t < |s.threads|
  {
    DoSubmit(s, s', t, b, ok) || DoReap(s, s', t, b, ok)
  }

  /** The system call on the way gave this answer. */
  ghost predicate Answers(path: seq<State>, t: nat, b: nat, ok: bool)
    requires Path(path, t, b)
  {
    exists i | 0 <= i < |path| - 1 :: AnswersAt(path, i, t, b, ok)
  }

  ghost predicate AnswersAt(path: seq<State>, i: nat, t: nat, b: nat, ok: bool)
    requires Path(path, t, b) && i + 1 < |path|
  {
    Call(path[i], path[i + 1], t, b, ok)
  }

  function Last(path: seq<State>): State
    requires |path| > 0
  {
    path[|path| - 1]
  }

  lemma AnswersLater(path: seq<State>, t: nat, b: nat, ok: bool)
    requires Path(path, t, b) && |path| > 1
    ensures Path(path[1..], t, b)
    ensures Answers(path, t, b, ok) <==> Call(path[0], path[1], t, b, ok) || Answers(path[1..], t, b, ok)
  {
    hide ThreadStep, Call;
    assert Path(path[1..], t, b);
    if i: nat :| i < |path| - 1 && AnswersAt(path, i, t, b, ok) {
      if i > 0 {
        assert AnswersAt(path[1..], i - 1, t, b, ok);
      }
    }
    if i: nat :| i < |path| - 2 && AnswersAt(path[1..], i, t, b, ok) {
      assert AnswersAt(path, i + 1, t, b, ok);
    }
    if Call(path[0], path[1], t, b, ok) {
      assert AnswersAt(path, 0, t, b, ok);
    }
  }

  /** One step of what is left of an operation, and what is left then. */
  lemma OneStep(path: seq<State>, t: nat, b: nat)
    requires Rest(path, t, b) && |path| > 1
    ensures ThreadStep(path[0], path[1], t, b) && path[0].threads[t] != Idle && Rest(path[1..], t, b)
    ensures Last(path[1..]) == Last(path)
    ensures forall ok :: Answers(path, t, b, ok) <==> Call(path[0], path[1], t, b, ok) || Answers(path[1..], t, b, ok)
  {
    hide ThreadStep, Call;
    forall ok
      ensures Answers(path, t, b, ok) <==> Call(path[0], path[1], t, b, ok) || Answers(path[1..], t, b, ok)
    {
      AnswersLater(path, t, b, ok);
    }
  }

  lemma AtTheEnd(path: seq<State>, t: nat, b: nat)
    requires Rest(path, t, b) && path[0].threads[t] == Idle
    ensures Last(path) == path[0] && forall ok :: !Answers(path, t, b, ok)
  {
  }

  lemma NotYet(path: seq<State>, t: nat, b: nat)
    requires Rest(path, t, b) && path[0].threads[t] != Idle
    ensures |path| > 1
  {
  }

  lemma Twice(s: State, t: nat, b: nat, pc: Pc, k: Block, pc': Pc, k': Block)
    requires t < |s.threads| && b < |s.blocks|
    ensures Update(Update(s, t, pc, b, k), t, pc', b, k') == Update(s, t, pc', b, k')
    ensures Move(s, t, pc) == Update(s, t, pc, b, s.blocks[b])
  {
  }

  // --- what is left of an operation ---

  /** The last step of an operation, which is no system call. */
  predicate Ends(s: State, t: nat, b: nat, k: Block)
    requires t < |s.threads| && b < |s.blocks|
  {
    var k0 := s.blocks[b];
    match s.threads[t]
    case Rollback(c, last) => c == b && k == k0.(state := last)
    case CommitState(c) => c == b && k == k0.(state := Init)
    case ReadBuffer(c) => c == b && k == k0
    case FreeMemory(c) => c == b && k == k0.(freed := true)
    case _ => false
  }

  lemma LastStep(path: seq<State>, t: nat, b: nat, k: Block)
    requires Rest(path, t, b) && Ends(path[0], t, b, k)
    ensures Last(path) == Update(path[0], t, Idle, b, k) && forall ok :: !Answers(path, t, b, ok)
  {
    NotYet(path, t, b);
    OneStep(path, t, b);
    var s, s' := path[0], path[1];
    assert s' == Update(s, t, Idle, b, k) && forall ok :: !Call(s, s', t, b, ok) by {
      hide Rest;
      Twice(s, t, b, Idle, k, Idle, k);
    }
    hide ThreadStep, Call;
    AtTheEnd(path[1..], t, b);
  }

  /** A step on the way, which is no system call, from one program counter to another. */
  predicate Goes(s: State, t: nat, b: nat, pc: Pc, k: Block)
    requires t < |s.threads| && b < |s.blocks|
  {
    var k0 := s.blocks[b];
    match s.threads[t]
    case LoadSaved(c) => c == b && pc == Rollback(b, k0.saved) && k == k0
    case CommitSaved(c) => c == b && pc == CommitState(b) && k == k0.(saved := Init)
    case Adopt(c, ok) =>
      && c == b && pc == (if ok then CommitSaved(b) else LoadSaved(b))
      && k == k0.(refs := k0.refs + 1, owners := k0.owners + multiset{t})
    case FreeLoad(c) => c == b && pc == (if k0.state == Pending then FreeCancel(b) else FreeMemory(b)) && k == k0
    case FreeCancel(c) =>
      c == b && pc == FreeReap(b) && k == k0.(kernel := if k0.kernel == InProgress then Done else k0.kernel)
    case FreeReap(c) =>
      c == b && pc == FreeMemory(b) && k == k0.(kernel := if k0.kernel == Done then NoRequest else k0.kernel)
    case _ => false
  }

  lemma NextStep(path: seq<State>, t: nat, b: nat, pc: Pc, k: Block)
    requires Rest(path, t, b) && Goes(path[0], t, b, pc, k)
    ensures |path| > 1 && path[1] == Update(path[0], t, pc, b, k) && Rest(path[1..], t, b)
    ensures Last(path[1..]) == Last(path)
    ensures forall ok :: Answers(path, t, b, ok) <==> Answers(path[1..], t, b, ok)
  {
    NotYet(path, t, b);
    OneStep(path, t, b);
    var s, s' := path[0], path[1];
    assert s' == Update(s, t, pc, b, k) && forall ok :: !Call(s, s', t, b, ok) by {
      hide Rest;
      Twice(s, t, b, Idle, k, Idle, k);
    }
  }

  /** After a failure: the saved state comes back. */
  lemma Restores(path: seq<State>, t: nat, b: nat)
    requires Rest(path, t, b) && path[0].threads[t] == LoadSaved(b)
    ensures var s, k := path[0], path[0].blocks[b];
            Last(path) == Update(s, t, Idle, b, k.(state := k.saved))
    ensures forall ok :: !Answers(path, t, b, ok)
  {
    var s, k := path[0], path[0].blocks[b];
    hide Rest, Answers, ThreadStep;
    NextStep(path, t, b, Rollback(b, k.saved), k);
    LastStep(path[1..], t, b, k.(state := k.saved));
    Twice(s, t, b, Rollback(b, k.saved), k, Idle, k.(state := k.saved));
  }

  /** After a success: state and `aio_state` become INIT. */
  lemma Commits(path: seq<State>, t: nat, b: nat)
    requires Rest(path, t, b) && path[0].threads[t] == CommitSaved(b)
    ensures var s, k := path[0], path[0].blocks[b];
            Last(path) == Update(s, t, Idle, b, k.(state := Init, saved := Init))
    ensures forall ok :: !Answers(path, t, b, ok)
  {
    var s, k := path[0], path[0].blocks[b];
    hide Rest, Answers, ThreadStep;
    NextStep(path, t, b, CommitState(b), k.(saved := Init));
    LastStep(path[1..], t, b, k.(saved := Init, state := Init));
    Twice(s, t, b, CommitState(b), k.(saved := Init), Idle, k.(saved := Init, state := Init));
  }

  /** From a successful swap on: the submission, and the rollback if it fails. */
  lemma Submits(path: seq<State>, t: nat, b: nat, last: CbState)
    requires Rest(path, t, b) && path[0].threads[t] == Submit(b, last)
    ensures var s, k := path[0], path[0].blocks[b];
            && (Answers(path, t, b, true) || Answers(path, t, b, false))
            && (Answers(path, t, b, true) ==> Last(path) == Update(s, t, Idle, b, k.(kernel := InProgress)))
            && (Answers(path, t, b, false) ==> Last(path) == Update(s, t, Idle, b, k.(state := last)))
  {
    var s, k := path[0], path[0].blocks[b];
    NotYet(path, t, b);
    OneStep(path, t, b);
    var ok :| DoSubmit(s, path[1], t, b, ok);
    assert !Call(s, path[1], t, b, !ok) && Call(s, path[1], t, b, ok);
    hide Rest, Answers, ThreadStep, Call;
    if ok {
      AtTheEnd(path[1..], t, b);
    } else {
      Twice(s, t, b, Rollback(b, last), k, Idle, k.(state := last));
      LastStep(path[1..], t, b, k.(state := last));
    }
  }

  /** A return from `aio_return` on. */
  lemma Reaps(path: seq<State>, t: nat, b: nat)
    requires Rest(path, t, b) && path[0].threads[t] == Reap(b) && path[0].blocks[b].kernel == Done
    ensures var s, k := path[0], path[0].blocks[b].(kernel := NoRequest);
            && (Answers(path, t, b, true) || Answers(path, t, b, false))
            && (Answers(path, t, b, true) ==> Last(path) == Update(s, t, Idle, b, k.(state := Init, saved := Init)))
            && (Answers(path, t, b, false) ==> Last(path) == Update(s, t, Idle, b, k.(state := k.saved)))
  {
    var s, k := path[0], path[0].blocks[b].(kernel := NoRequest);
    NotYet(path, t, b);
    OneStep(path, t, b);
    var ok :| DoReap(s, path[1], t, b, ok);
    assert !Call(s, path[1], t, b, !ok) && Call(s, path[1], t, b, ok);
    hide Rest, Answers, ThreadStep, Call;
    if ok {
      Twice(s, t, b, CommitSaved(b), k, Idle, k.(state := Init, saved := Init));
      Commits(path[1..], t, b);
    } else {
      Twice(s, t, b, LoadSaved(b), k, Idle, k.(state := k.saved));
      Restores(path[1..], t, b);
    }
  }

  /** From the cancellation on. */
  lemma Cancels(path: seq<State>, t: nat, b: nat)
    requires Rest(path, t, b) && path[0].threads[t] == FreeCancel(b)
    ensures Last(path) == Update(path[0], t, Idle, b, path[0].blocks[b].(kernel := NoRequest, freed := true))
  {
    var s, k := path[0], path[0].blocks[b];
    var done := k.(kernel := NoRequest);
    var over := k.(kernel := if k.kernel == InProgress then Done else k.kernel);
    hide Rest, Answers, ThreadStep;
    NextStep(path, t, b, FreeReap(b), over);
    NextStep(path[1..], t, b, FreeMemory(b), done);
    LastStep(path[1..][1..], t, b, done.(freed := true));
    Twice(s, t, b, FreeReap(b), over, FreeMemory(b), done);
    Twice(s, t, b, FreeMemory(b), done, Idle, done.(freed := true));
  }

  /** The end of the memory: whatever is still with the kernel is cancelled or waited for, and reaped. */
  lemma Frees(path: seq<State>, t: nat, b: nat)
    requires Rest(path, t, b) && path[0].threads[t] == FreeLoad(b)
    requires path[0].blocks[b].state != Pending ==> path[0].blocks[b].kernel == NoRequest
    ensures Last(path) == Update(path[0], t, Idle, b, path[0].blocks[b].(kernel := NoRequest, freed := true))
  {
    var s, k := path[0], path[0].blocks[b];
    var done := k.(kernel := NoRequest);
    hide Rest, Answers, ThreadStep;
    if k.state == Pending {
      NextStep(path, t, b, FreeCancel(b), k);
      Cancels(path[1..], t, b);
      Twice(s, t, b, FreeCancel(b), k, Idle, done.(freed := true));
    } else {
      NextStep(path, t, b, FreeMemory(b), k);
      LastStep(path[1..], t, b, k.(freed := true));
    }
    Twice(s, t, b, FreeMemory(b), done, Idle, done.(freed := true));
  }

  // --- whole operations ---

  /** The first step of an operation, what is left, and what it answers. */
  lemma FirstStep(path: seq<State>, t: nat, b: nat)
    requires Operation(path, t, b)
    ensures Rest(path[1..], t, b) && path[1..][0] == path[1] && Last(path[1..]) == Last(path)
    ensures forall ok :: Answers(path, t, b, ok) <==> Answers(path[1..], t, b, ok)
  {
    hide ThreadStep;
    forall ok ensures Answers(path, t, b, ok) <==> Answers(path[1..], t, b, ok) {
      AnswersLater(path, t, b, ok);
    }
  }

  /** `l_aio_write`, `l_aio_mlock`, `l_aio_fsync`, and the second swap of `l_aio_read`. */
  lemma SwapFromInit(path: seq<State>, s: State, t: nat, b: nat)
    requires Rest(path, t, b) && t < |s.threads| && b < |s.blocks| && TryWrite(s, path[0], t, b)
    ensures var k := s.blocks[b];
            && (k.state != Init ==> Last(path) == Update(s, t, Idle, b, k) && forall ok :: !Answers(path, t, b, ok))
            && (k.state == Init ==> Answers(path, t, b, true) || Answers(path, t, b, false))
            && (Answers(path, t, b, true) ==>
                  Last(path) == Update(s, t, Idle, b, k.(state := Pending, kernel := InProgress)))
            && (Answers(path, t, b, false) ==> Last(path) == Update(s, t, Idle, b, k))
  {
    var k := s.blocks[b];
    hide Rest, Answers, ThreadStep;
    Twice(s, t, b, Idle, k, Idle, k);
    if k.state == Init {
      var k' := k.(state := Pending);
      Submits(path, t, b, Init);
      Twice(s, t, b, Submit(b, Init), k', Idle, k'.(kernel := InProgress));
      Twice(s, t, b, Submit(b, Init), k', Idle, k'.(state := Init));
      assert k'.(state := Init) == k;
    } else {
      AtTheEnd(path, t, b);
    }
  }

  lemma WriteUndisturbed(path: seq<State>, t: nat, b: nat)
    requires Operation(path, t, b) && TryWrite(path[0], path[1], t, b)
    ensures var s, k, s' := path[0], path[0].blocks[b], Last(path);
            && s'.threads == s.threads
            && (k.state != Init ==> s'.blocks == s.blocks && forall ok :: !Answers(path, t, b, ok))
            && (k.state == Init ==> Answers(path, t, b, true) || Answers(path, t, b, false))
            && (Answers(path, t, b, true) ==> s'.blocks == s.blocks[b := k.(state := Pending, kernel := InProgress)])
            && (Answers(path, t, b, false) ==> s'.blocks == s.blocks)
  {
    FirstStep(path, t, b);
    hide Rest, Answers, ThreadStep, TryWrite;
    SwapFromInit(path[1..], path[0], t, b);
  }

  /** The second swap of a read. */
  lemma Retries(path: seq<State>, t: nat, b: nat)
    requires Rest(path, t, b) && path[0].threads[t] == RetryInit(b)
    ensures var s, k := path[0], path[0].blocks[b];
            && (k.state != Init ==> Last(path) == Update(s, t, Idle, b, k) && forall ok :: !Answers(path, t, b, ok))
            && (k.state == Init ==> Answers(path, t, b, true) || Answers(path, t, b, false))
            && (Answers(path, t, b, true) ==>
                  Last(path) == Update(s, t, Idle, b, k.(state := Pending, kernel := InProgress)))
            && (Answers(path, t, b, false) ==> Last(path) == Update(s, t, Idle, b, k))
  {
    NotYet(path, t, b);
    OneStep(path, t, b);
    assert TryWrite(path[0], path[1], t, b) && forall ok :: !Call(path[0], path[1], t, b, ok) by {
      hide Rest, Answers;
    }
    hide Rest, Answers, ThreadStep, Call, TryWrite;
    SwapFromInit(path[1..], path[0], t, b);
  }

  lemma ReadUndisturbed(path: seq<State>, t: nat, b: nat)
    requires Operation(path, t, b) && TryRead(path[0], path[1], t, b)
    ensures var s, k, s' := path[0], path[0].blocks[b], Last(path);
            && s'.threads == s.threads
            && (k.state !in {Uninit, Init} ==> s'.blocks == s.blocks && forall ok :: !Answers(path, t, b, ok))
            && (k.state in {Uninit, Init} ==> Answers(path, t, b, true) || Answers(path, t, b, false))
            && (Answers(path, t, b, true) ==> s'.blocks == s.blocks[b := k.(state := Pending, kernel := InProgress)])
            && (Answers(path, t, b, false) ==> s'.blocks == s.blocks)
  {
    FirstStep(path, t, b);
    var s, k := path[0], path[0].blocks[b];
    hide Rest, Answers;
    if k.state == Uninit {
      hide ThreadStep;
      var k' := k.(state := Pending);
      Submits(path[1..], t, b, Uninit);
      Twice(s, t, b, Submit(b, Uninit), k', Idle, k'.(kernel := InProgress));
      Twice(s, t, b, Submit(b, Uninit), k', Idle, k'.(state := Uninit));
      assert k'.(state := Uninit) == k;
    } else {
      hide ThreadStep, TryRead;
      Retries(path[1..], t, b);
    }
  }

  lemma ReturnUndisturbed(path: seq<State>, t: nat, b: nat)
    requires Operation(path, t, b) && TryReturn(path[0], path[1], t, b)
    ensures var s, k, s' := path[0], path[0].blocks[b], Last(path);
            && s'.threads == s.threads
            && (k.state != Pending ==> s'.blocks == s.blocks && forall ok :: !Answers(path, t, b, ok))
            && (k.state == Pending ==> Answers(path, t, b, true) || Answers(path, t, b, false))
            && (Answers(path, t, b, true) ==>
                  s'.blocks == s.blocks[b := k.(state := Init, saved := Init, kernel := NoRequest)])
            && (Answers(path, t, b, false) ==>
                  s'.blocks == s.blocks[b := k.(state := k.saved, kernel := NoRequest)])
  {
    FirstStep(path, t, b);
    var s, k := path[0], path[0].blocks[b];
    hide Rest, Answers, ThreadStep;
    if k.state == Pending {
      var k' := k.(state := Returning);
      Reaps(path[1..], t, b);
      Twice(s, t, b, Reap(b), k', Idle, k'.(state := Init, saved := Init, kernel := NoRequest));
      Twice(s, t, b, Reap(b), k', Idle, k'.(state := k.saved, kernel := NoRequest));
    } else {
      AtTheEnd(path[1..], t, b);
    }
  }

  /** A `waitcomplete` that yields block b; its answer is that of its first step. */
  lemma WaitUndisturbed(path: seq<State>, t: nat, b: nat, ok: bool)
    requires Operation(path, t, b) && WaitComplete(path[0], path[1], t, b, ok)
    ensures var s, k, s' := path[0], path[0].blocks[b], Last(path);
            var k' := k.(refs := k.refs + 1, owners := k.owners + multiset{t}, kernel := NoRequest);
            && s'.threads == s.threads
            && (ok ==> s'.blocks == s.blocks[b := k'.(state := Init, saved := Init)])
            && (!ok ==> s'.blocks == s.blocks[b := k'.(state := k.saved)])
  {
    FirstStep(path, t, b);
    var s, k := path[0], path[0].blocks[b];
    var reaped := k.(kernel := NoRequest);
    var k' := reaped.(refs := k.refs + 1, owners := k.owners + multiset{t});
    var pc := if ok then CommitSaved(b) else LoadSaved(b);
    var r := path[1..];
    hide Rest, Answers, ThreadStep;
    NextStep(r, t, b, pc, k');
    Twice(s, t, b, Adopt(b, ok), reaped, pc, k');
    if ok {
      Commits(r[1..], t, b);
      Twice(s, t, b, pc, k', Idle, k'.(state := Init, saved := Init));
    } else {
      Restores(r[1..], t, b);
      Twice(s, t, b, pc, k', Idle, k'.(state := k.saved));
    }
  }

  lemma FreeUndisturbed(path: seq<State>, t: nat, b: nat)
    requires Operation(path, t, b) && Release(path[0], path[1], t, b)
    requires path[0].blocks[b].state != Pending ==> path[0].blocks[b].kernel == NoRequest
    ensures var s, k, s' := path[0], path[0].blocks[b], Last(path);
            var k' := k.(refs := k.refs - 1, owners := k.owners - multiset{t});
            && s'.threads == s.threads
            && (k.refs > 1 ==> s'.blocks == s.blocks[b := k'])
            && (k.refs == 1 ==> s'.blocks == s.blocks[b := k'.(kernel := NoRequest, freed := true)])
  {
    FirstStep(path, t, b);
    var s, k := path[0], path[0].blocks[b];
    var k' := k.(refs := k.refs - 1, owners := k.owners - multiset{t});
    hide Rest, Answers, ThreadStep;
    if k.refs > 1 {
      AtTheEnd(path[1..], t, b);
    } else {
      Frees(path[1..], t, b);
      Twice(s, t, b, FreeLoad(b), k', Idle, k'.(kernel := NoRequest, freed := true));
    }
  }

  /** `buf` or `iov`: the buffer is read exactly when the block was INIT, and nothing changes. */
  lemma CheckUndisturbed(path: seq<State>, t: nat, b: nat)
    requires Operation(path, t, b) && CheckBuffer(path[0], path[1], t, b)
    ensures Last(path) == path[0]
    ensures path[0].blocks[b].state == Init <==> path[1].threads[t] == ReadBuffer(b)
    ensures path[0].blocks[b].state == Init ==> |path| == 3 && DoReadBuffer(path[1], path[2], t, b)
  {
    FirstStep(path, t, b);
    var s, k := path[0], path[0].blocks[b];
    var r := path[1..];
    if k.state == Init {
      NotYet(r, t, b);
      OneStep(r, t, b);
      assert DoReadBuffer(r[0], r[1], t, b);
    }
  }

  // --- each answer is possible ---

  /** The first steps of an operation. */
  ghost predicate Begun(path: seq<State>, t: nat, b: nat) {
    Path(path, t, b) && forall i | 0 <= i < |path| :: path[i].threads[t] == Idle <==> i == 0
  }

  lemma Start(s: State, t: nat, b: nat)
    requires t < |s.threads| && b < |s.blocks| && s.threads[t] == Idle
    ensures Begun([s], t, b)
  {
  }

  lemma Further(path: seq<State>, s': State, t: nat, b: nat)
    requires Begun(path, t, b) && ThreadStep(Last(path), s', t, b)
    requires t < |s'.threads| && b < |s'.blocks|
    ensures Path(path + [s'], t, b)
    ensures s'.threads[t] != Idle ==> Begun(path + [s'], t, b)
    ensures s'.threads[t] == Idle ==> Operation(path + [s'], t, b)
    ensures forall ok :: Answers(path, t, b, ok) || Call(Last(path), s', t, b, ok) ==> Answers(path + [s'], t, b, ok)
  {
    hide ThreadStep, Call;
    var all := path + [s'];
    assert forall i | 0 <= i < |path| :: all[i] == path[i];
    assert Path(all, t, b);
    forall ok | Answers(path, t, b, ok) || Call(Last(path), s', t, b, ok) ensures Answers(all, t, b, ok) {
      if Answers(path, t, b, ok) {
        var i :| 0 <= i < |path| - 1 && AnswersAt(path, i, t, b, ok);
        assert AnswersAt(all, i, t, b, ok);
      } else {
        assert AnswersAt(all, |path| - 1, t, b, ok);
      }
    }
  }

  /** A submission that was begun can be accepted, and can fail. */
  lemma CanSubmit(path: seq<State>, t: nat, b: nat, last: CbState, ok: bool) returns (all: seq<State>)
    requires Begun(path, t, b) && Last(path).threads[t] == Submit(b, last)
    ensures path <= all && Operation(all, t, b) && Answers(all, t, b, ok)
  {
    var s := Last(path);
    var k := s.blocks[b];
    var s' := if ok then Update(s, t, Idle, b, k.(kernel := InProgress)) else Move(s, t, Rollback(b, last));
    assert DoSubmit(s, s', t, b, ok) && ThreadStep(s, s', t, b) && Call(s, s', t, b, ok);
    Further(path, s', t, b);
    all := path + [s'];
    if !ok {
      var s'' := Update(s', t, Idle, b, k.(state := last));
      assert DoRollback(s', s'', t, b) && ThreadStep(s', s'', t, b);
      Further(all, s'', t, b);
      all := all + [s''];
    }
  }

  lemma WriteHappens(s: State, t: nat, b: nat, ok: bool) returns (path: seq<State>)
    requires t < |s.threads| && Ready(s, t, b) && s.blocks[b].state == Init
    ensures Operation(path, t, b) && path[0] == s && TryWrite(path[0], path[1], t, b) && Answers(path, t, b, ok)
  {
    var s' := Update(s, t, Submit(b, Init), b, s.blocks[b].(state := Pending));
    assert TryWrite(s, s', t, b) && ThreadStep(s, s', t, b);
    Start(s, t, b);
    Further([s], s', t, b);
    path := CanSubmit([s] + [s'], t, b, Init, ok);
  }

  lemma ReadHappens(s: State, t: nat, b: nat, ok: bool) returns (path: seq<State>)
    requires t < |s.threads| && Ready(s, t, b) && s.blocks[b].state in {Uninit, Init}
    ensures Operation(path, t, b) && path[0] == s && TryRead(path[0], path[1], t, b) && Answers(path, t, b, ok)
  {
    var k := s.blocks[b];
    Start(s, t, b);
    if k.state == Uninit {
      var s' := Update(s, t, Submit(b, Uninit), b, k.(state := Pending));
      assert TryRead(s, s', t, b) && ThreadStep(s, s', t, b);
      Further([s], s', t, b);
      path := CanSubmit([s] + [s'], t, b, Uninit, ok);
    } else {
      var r := Move(s, t, RetryInit(b));
      assert TryRead(s, r, t, b) && ThreadStep(s, r, t, b);
      Further([s], r, t, b);
      var s' := Update(r, t, Submit(b, Init), b, k.(state := Pending));
      assert TryWrite(r, s', t, b) && ThreadStep(r, s', t, b);
      Further([s] + [r], s', t, b);
      path := CanSubmit([s] + [r] + [s'], t, b, Init, ok);
    }
  }

  /** Once its answer is known, an operation that ends a request comes to its end. */
  lemma CanEnd(path: seq<State>, t: nat, b: nat, ok: bool) returns (all: seq<State>)
    requires Begun(path, t, b) && Last(path).threads[t] == if ok then CommitSaved(b) else LoadSaved(b)
    ensures path <= all && Operation(all, t, b)
    ensures forall a :: Answers(path, t, b, a) ==> Answers(all, t, b, a)
  {
    var s := Last(path);
    var k := s.blocks[b];
    if ok {
      var m := Update(s, t, CommitState(b), b, k.(saved := Init));
      assert DoCommitSaved(s, m, t, b) && ThreadStep(s, m, t, b);
      Further(path, m, t, b);
      var s' := Update(m, t, Idle, b, m.blocks[b].(state := Init));
      assert DoCommitState(m, s', t, b) && ThreadStep(m, s', t, b);
      Further(path + [m], s', t, b);
      all := path + [m] + [s'];
    } else {
      var m := Move(s, t, Rollback(b, k.saved));
      assert DoLoadSaved(s, m, t, b) && ThreadStep(s, m, t, b);
      Further(path, m, t, b);
      var s' := Update(m, t, Idle, b, k.(state := k.saved));
      assert DoRollback(m, s', t, b) && ThreadStep(m, s', t, b);
      Further(path + [m], s', t, b);
      all := path + [m] + [s'];
    }
  }

  lemma ReturnHappens(s: State, t: nat, b: nat, ok: bool) returns (path: seq<State>)
    requires t < |s.threads| && Ready(s, t, b) && s.blocks[b].state == Pending && s.blocks[b].kernel == Done
    ensures Operation(path, t, b) && path[0] == s && TryReturn(path[0], path[1], t, b) && Answers(path, t, b, ok)
  {
    var k := s.blocks[b];
    var r := Update(s, t, Reap(b), b, k.(state := Returning));
    assert TryReturn(s, r, t, b) && ThreadStep(s, r, t, b);
    Start(s, t, b);
    Further([s], r, t, b);
    var m := Update(r, t, if ok then CommitSaved(b) else LoadSaved(b), b, r.blocks[b].(kernel := NoRequest));
    assert DoReap(r, m, t, b, ok) && ThreadStep(r, m, t, b) && Call(r, m, t, b, ok);
    Further([s] + [r], m, t, b);
    path := CanEnd([s] + [r] + [m], t, b, ok);
  }

  lemma WaitHappens(s: State, t: nat, b: nat, ok: bool) returns (path: seq<State>)
    requires t < |s.threads| && s.threads[t] == Idle && b < |s.blocks|
    requires s.blocks[b].kernel == Done && s.blocks[b].state != Returning && |s.blocks[b].owners| > 0
    ensures Operation(path, t, b) && path[0] == s && WaitComplete(path[0], path[1], t, b, ok)
  {
    var r := Update(s, t, Adopt(b, ok), b, s.blocks[b].(kernel := NoRequest));
    assert WaitComplete(s, r, t, b, ok) && ThreadStep(s, r, t, b);
    Start(s, t, b);
    Further([s], r, t, b);
    var k := r.blocks[b];
    var m := Update(r, t, if ok then CommitSaved(b) else LoadSaved(b), b,
                    k.(refs := k.refs + 1, owners := k.owners + multiset{t}));
    assert DoAdopt(r, m, t, b) && ThreadStep(r, m, t, b);
    Further([s] + [r], m, t, b);
    path := CanEnd([s] + [r] + [m], t, b, ok);
  }
}
