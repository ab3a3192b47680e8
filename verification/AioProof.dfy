/** The invariant of the AIO protocol, step by step. */
module AioProof {
  import opened AioProtocol

  /** A step of thread t on block b. */
  ghost predicate Local(s: State, s': State, t: nat, b: nat) {
    && t < |s.threads| && |s'.threads| == |s.threads| && b < |s.blocks| && |s'.blocks| == |s.blocks|
    && (forall u | 0 <= u < |s.threads| && u != t :: s'.threads[u] == s.threads[u])
    && (forall c | 0 <= c < |s.blocks| && c != b :: s'.blocks[c] == s.blocks[c])
    && (s.threads[t].Idle? || s.threads[t].b == b)
    && (s'.threads[t].Idle? || s'.threads[t].b == b)
  }

  lemma OtherBlock(s: State, s': State, t: nat, b: nat, c: nat)
    requires Local(s, s', t, b) && c < |s.blocks| && c != b && BlockOk(s, c)
    ensures BlockOk(s', c)
  {
    if SomeBusy(s, c) {
      var u :| 0 <= u < |s.threads| && Busy(s.threads[u], c);
      assert Busy(s'.threads[u], c);
    }
    if SomeFreeing(s, c) {
      var u :| 0 <= u < |s.threads| && Freeing(s.threads[u], c);
      assert Freeing(s'.threads[u], c);
    }
  }

  /** What remains to be shown of a step of t on b. */
  lemma LocalInv(s: State, s': State, t: nat, b: nat)
    requires Inv(s) && Local(s, s', t, b)
    requires BlockOk(s', b) && ThreadOk(s', t)
    requires forall u | 0 <= u < |s.threads| && u != t && Touches(s.threads[u], b) ::
               && ThreadOk(s', u)
               && !(Busy(s'.threads[t], b) && Busy(s.threads[u], b))
               && !Freeing(s'.threads[t], b)
               && (Freeing(s.threads[u], b) ==> !Touches(s'.threads[t], b))
    ensures Inv(s')
  {
    forall c | 0 <= c < |s'.blocks| ensures BlockOk(s', c) {
      if c != b {
        OtherBlock(s, s', t, b, c);
      }
    }
    hide BlockOk;
    forall u | 0 <= u < |s'.threads| ensures ThreadOk(s', u) {
      assert ThreadOk(s, u);
    }
  }

  /** While t is busy or freeing, no other thread is. */
  lemma Alone(s: State, t: nat, u: nat, b: nat)
    requires Inv(s) && t < |s.threads| && u < |s.threads| && t != u && Touches(s.threads[u], b)
    ensures Busy(s.threads[t], b) ==> !Busy(s.threads[u], b)
    ensures !Freeing(s.threads[t], b)
    ensures Touches(s.threads[t], b) ==> !Freeing(s.threads[u], b)
  {
  }

  lemma InitInv(s: State)
    requires Init0(s)
    ensures Inv(s)
  {
  }

  lemma CreateInv(s: State, s': State, t: nat, st: CbState)
    requires Inv(s) && t < |s.threads| && Create(s, s', t, st)
    ensures Inv(s')
  {
    forall c | 0 <= c < |s.blocks| ensures BlockOk(s', c) {
      assert BlockOk(s, c);
    }
    forall u | 0 <= u < |s.threads| ensures ThreadOk(s', u) {
      assert ThreadOk(s, u);
    }
  }

  lemma CompleteInv(s: State, s': State, b: nat)
    requires Inv(s) && Complete(s, s', b)
    ensures Inv(s')
  {
    assert BlockOk(s, b);
    forall c | 0 <= c < |s.blocks| ensures BlockOk(s', c) {
      assert BlockOk(s, c);
    }
    forall u | 0 <= u < |s.threads| ensures ThreadOk(s', u) {
      assert ThreadOk(s, u);
    }
  }

  lemma RetainInv(s: State, s': State, t: nat, b: nat)
    requires Inv(s) && t < |s.threads| && Retain(s, s', t, b)
    ensures Inv(s')
  {
    assert BlockOk(s, b);
    forall u | 0 <= u < |s.threads| && Touches(s.threads[u], b) ensures ThreadOk(s', u) && !Freeing(s.threads[u], b) {
      assert ThreadOk(s, u);
    }
    LocalInv(s, s', t, b);
  }

  /** A thread that is not busy can move without hiding the one that is. */
  lemma StillBusy(s: State, s': State, t: nat, b: nat)
    requires Local(s, s', t, b) && !Busy(s.threads[t], b) && !Freeing(s.threads[t], b)
    ensures SomeBusy(s, b) ==> SomeBusy(s', b)
    ensures SomeFreeing(s, b) ==> SomeFreeing(s', b)
  {
    if SomeBusy(s, b) {
      var u :| 0 <= u < |s.threads| && Busy(s.threads[u], b);
      assert Busy(s'.threads[u], b);
    }
    if SomeFreeing(s, b) {
      var u :| 0 <= u < |s.threads| && Freeing(s.threads[u], b);
      assert Freeing(s'.threads[u], b);
    }
  }

  /** The same for a step on a block that is alive: what it must not disturb others by. */
  lemma LiveInv(s: State, s': State, t: nat, b: nat)
    requires Inv(s) && Local(s, s', t, b) && BlockOk(s', b) && ThreadOk(s', t)
    requires s.blocks[b].refs > 0 && !Freeing(s'.threads[t], b)
    requires var k, k' := s.blocks[b], s'.blocks[b];
             && k.owners <= k'.owners && k'.freed == k.freed && k'.refs >= k.refs
             && (k' != k || Busy(s'.threads[t], b) ==>
                   Busy(s.threads[t], b) || k.state in {Uninit, Init} || (k.state == Pending && k.kernel == Done))
    ensures Inv(s')
  {
    forall u | 0 <= u < |s.threads| && u != t && Touches(s.threads[u], b)
      ensures ThreadOk(s', u) && !Freeing(s.threads[u], b)
      ensures !(Busy(s'.threads[t], b) && Busy(s.threads[u], b))
    {
      assert ThreadOk(s, u);
      Alone(s, t, u, b);
    }
    hide BlockOk, ThreadOk;
    LocalInv(s, s', t, b);
  }

  lemma TryReadInv(s: State, s': State, t: nat, b: nat)
    requires Inv(s) && t < |s.threads| && TryRead(s, s', t, b)
    ensures Inv(s')
  {
    assert BlockOk(s, b) && ThreadOk(s, t);
    if s.blocks[b].state == Uninit {
      assert Busy(s'.threads[t], b);
    } else {
      StillBusy(s, s', t, b);
    }
    LiveInv(s, s', t, b);
  }

  lemma TryWriteInv(s: State, s': State, t: nat, b: nat)
    requires Inv(s) && t < |s.threads| && TryWrite(s, s', t, b)
    ensures Inv(s')
  {
    assert BlockOk(s, b) && ThreadOk(s, t);
    if s.blocks[b].state == Init {
      assert Busy(s'.threads[t], b);
    } else {
      StillBusy(s, s', t, b);
    }
    LiveInv(s, s', t, b);
  }

  lemma SubmitInv(s: State, s': State, t: nat, b: nat, ok: bool)
    requires Inv(s) && t < |s.threads| && DoSubmit(s, s', t, b, ok)
    ensures Inv(s')
  {
    assert BlockOk(s, b) && ThreadOk(s, t);
    if !ok {
      assert Busy(s'.threads[t], b);
    }
    LiveInv(s, s', t, b);
  }

  lemma RollbackInv(s: State, s': State, t: nat, b: nat)
    requires Inv(s) && t < |s.threads| && DoRollback(s, s', t, b)
    ensures Inv(s')
  {
    assert BlockOk(s, b) && ThreadOk(s, t);
    LiveInv(s, s', t, b);
  }

  lemma TryReturnInv(s: State, s': State, t: nat, b: nat)
    requires Inv(s) && t < |s.threads| && TryReturn(s, s', t, b)
    ensures Inv(s')
  {
    assert BlockOk(s, b) && ThreadOk(s, t);
    if s.blocks[b].state == Pending {
      assert Busy(s'.threads[t], b);
    } else {
      StillBusy(s, s', t, b);
    }
    LiveInv(s, s', t, b);
  }

  lemma ReapInv(s: State, s': State, t: nat, b: nat, ok: bool)
    requires Inv(s) && t < |s.threads| && DoReap(s, s', t, b, ok)
    ensures Inv(s')
  {
    assert BlockOk(s, b) && ThreadOk(s, t);
    assert Busy(s'.threads[t], b);
    LiveInv(s, s', t, b);
  }

  lemma LoadSavedInv(s: State, s': State, t: nat, b: nat)
    requires Inv(s) && t < |s.threads| && DoLoadSaved(s, s', t, b)
    ensures Inv(s')
  {
    assert BlockOk(s, b) && ThreadOk(s, t);
    assert Busy(s'.threads[t], b);
    LiveInv(s, s', t, b);
  }

  lemma CommitSavedInv(s: State, s': State, t: nat, b: nat)
    requires Inv(s) && t < |s.threads| && DoCommitSaved(s, s', t, b)
    ensures Inv(s')
  {
    assert BlockOk(s, b) && ThreadOk(s, t);
    assert Busy(s'.threads[t], b);
    LiveInv(s, s', t, b);
  }

  lemma CommitStateInv(s: State, s': State, t: nat, b: nat)
    requires Inv(s) && t < |s.threads| && DoCommitState(s, s', t, b)
    ensures Inv(s')
  {
    assert BlockOk(s, b) && ThreadOk(s, t);
    LiveInv(s, s', t, b);
  }

  lemma WaitCompleteInv(s: State, s': State, t: nat, b: nat, ok: bool)
    requires Inv(s) && t < |s.threads| && WaitComplete(s, s', t, b, ok)
    ensures Inv(s')
  {
    assert BlockOk(s, b) && ThreadOk(s, t);
    assert Busy(s'.threads[t], b);
    LiveInv(s, s', t, b);
  }

  lemma AdoptInv(s: State, s': State, t: nat, b: nat)
    requires Inv(s) && t < |s.threads| && DoAdopt(s, s', t, b)
    ensures Inv(s')
  {
    assert BlockOk(s, b) && ThreadOk(s, t);
    assert Busy(s'.threads[t], b);
    LiveInv(s, s', t, b);
  }

  lemma CheckBufferInv(s: State, s': State, t: nat, b: nat)
    requires Inv(s) && t < |s.threads| && CheckBuffer(s, s', t, b)
    ensures Inv(s')
  {
    assert BlockOk(s, b) && ThreadOk(s, t);
    StillBusy(s, s', t, b);
    LiveInv(s, s', t, b);
  }

  lemma ReadBufferInv(s: State, s': State, t: nat, b: nat)
    requires Inv(s) && t < |s.threads| && DoReadBuffer(s, s', t, b)
    ensures Inv(s')
  {
    assert BlockOk(s, b) && ThreadOk(s, t);
    StillBusy(s, s', t, b);
    LiveInv(s, s', t, b);
  }

  /** A thread that frees a block has it to itself. */
  lemma FreeingInv(s: State, s': State, t: nat, b: nat)
    requires Inv(s) && Local(s, s', t, b) && Freeing(s.threads[t], b)
    requires BlockOk(s', b) && ThreadOk(s', t)
    ensures Inv(s')
  {
    hide BlockOk, ThreadOk;
    LocalInv(s, s', t, b);
  }

  lemma FreeLoadInv(s: State, s': State, t: nat, b: nat)
    requires Inv(s) && t < |s.threads| && DoFreeLoad(s, s', t, b)
    ensures Inv(s')
  {
    assert BlockOk(s, b) && ThreadOk(s, t);
    assert Freeing(s'.threads[t], b);
    FreeingInv(s, s', t, b);
  }

  lemma FreeCancelInv(s: State, s': State, t: nat, b: nat)
    requires Inv(s) && t < |s.threads| && DoFreeCancel(s, s', t, b)
    ensures Inv(s')
  {
    assert BlockOk(s, b) && ThreadOk(s, t);
    assert Freeing(s'.threads[t], b);
    FreeingInv(s, s', t, b);
  }

  lemma FreeReapInv(s: State, s': State, t: nat, b: nat)
    requires Inv(s) && t < |s.threads| && DoFreeReap(s, s', t, b)
    ensures Inv(s')
  {
    assert BlockOk(s, b) && ThreadOk(s, t);
    assert Freeing(s'.threads[t], b);
    FreeingInv(s, s', t, b);
  }

  lemma FreeMemoryInv(s: State, s': State, t: nat, b: nat)
    requires Inv(s) && t < |s.threads| && DoFreeMemory(s, s', t, b)
    ensures Inv(s')
  {
    assert BlockOk(s, b) && ThreadOk(s, t);
    FreeingInv(s, s', t, b);
  }

  lemma ReleaseInv(s: State, s': State, t: nat, b: nat)
    requires Inv(s) && t < |s.threads| && Release(s, s', t, b)
    ensures Inv(s')
  {
    assert BlockOk(s, b);
    var k, k' := s.blocks[b], s'.blocks[b];
    if k.refs > 1 {
      StillBusy(s, s', t, b);
      forall u | 0 <= u < |s.threads| && u != t && Touches(s.threads[u], b)
        ensures ThreadOk(s', u) && !Freeing(s.threads[u], b)
      {
        assert ThreadOk(s, u);
      }
      LocalInv(s, s', t, b);
    } else {
      LastReference(s, t, b);
      assert Freeing(s'.threads[t], b);
      LocalInv(s, s', t, b);
    }
  }

  /** Whoever holds the only reference is the only thread that can be anywhere near the block. */
  lemma LastReference(s: State, t: nat, b: nat)
    requires Inv(s) && t < |s.threads| && Ready(s, t, b) && s.blocks[b].refs == 1 && !Adopting(s, b)
    ensures forall u | 0 <= u < |s.threads| && u != t :: !Touches(s.threads[u], b)
    ensures s.blocks[b].owners == multiset{t} && !SomeBusy(s, b)
  {
    var k := s.blocks[b];
    assert BlockOk(s, b);
    assert |k.owners - multiset{t}| == 0;
    assert k.owners == (k.owners - multiset{t}) + multiset{t};
    forall u | 0 <= u < |s.threads| && u != t ensures !Touches(s.threads[u], b) {
      assert ThreadOk(s, u);
    }
  }

  lemma ThreadStepInv(s: State, s': State, t: nat, b: nat)
    requires Inv(s) && t < |s.threads| && ThreadStep(s, s', t, b)
    ensures Inv(s')
  {
    hide Inv, Retain, TryRead, TryWrite, DoSubmit, DoRollback, TryReturn, DoReap, DoLoadSaved, DoCommitSaved,
         DoCommitState, WaitComplete, DoAdopt, CheckBuffer, DoReadBuffer, Release, DoFreeLoad, DoFreeCancel,
         DoFreeReap, DoFreeMemory;
    if ok :| DoSubmit(s, s', t, b, ok) {
      SubmitInv(s, s', t, b, ok);
    } else if ok :| DoReap(s, s', t, b, ok) {
      ReapInv(s, s', t, b, ok);
    } else if ok :| WaitComplete(s, s', t, b, ok) {
      WaitCompleteInv(s, s', t, b, ok);
    } else if Retain(s, s', t, b) {
      RetainInv(s, s', t, b);
    } else if TryRead(s, s', t, b) {
      TryReadInv(s, s', t, b);
    } else if TryWrite(s, s', t, b) {
      TryWriteInv(s, s', t, b);
    } else if DoRollback(s, s', t, b) {
      RollbackInv(s, s', t, b);
    } else if TryReturn(s, s', t, b) {
      TryReturnInv(s, s', t, b);
    } else if DoLoadSaved(s, s', t, b) {
      LoadSavedInv(s, s', t, b);
    } else if DoCommitSaved(s, s', t, b) {
      CommitSavedInv(s, s', t, b);
    } else if DoCommitState(s, s', t, b) {
      CommitStateInv(s, s', t, b);
    } else if DoAdopt(s, s', t, b) {
      AdoptInv(s, s', t, b);
    } else if CheckBuffer(s, s', t, b) {
      CheckBufferInv(s, s', t, b);
    } else if DoReadBuffer(s, s', t, b) {
      ReadBufferInv(s, s', t, b);
    } else if Release(s, s', t, b) {
      ReleaseInv(s, s', t, b);
    } else if DoFreeLoad(s, s', t, b) {
      FreeLoadInv(s, s', t, b);
    } else if DoFreeCancel(s, s', t, b) {
      FreeCancelInv(s, s', t, b);
    } else if DoFreeReap(s, s', t, b) {
      FreeReapInv(s, s', t, b);
    } else {
      FreeMemoryInv(s, s', t, b);
    }
  }

  lemma NextInv(s: State, s': State)
    requires Inv(s) && Next(s, s')
    ensures Inv(s')
  {
    hide Inv, Complete, Create, ThreadStep;
    if b: nat :| Complete(s, s', b) {
      CompleteInv(s, s', b);
    } else if t: nat, b: nat :| t < |s.threads| && ThreadStep(s, s', t, b) {
      ThreadStepInv(s, s', t, b);
    } else {
      var t: nat, st :| t < |s.threads| && Create(s, s', t, st);
      CreateInv(s, s', t, st);
    }
  }

  lemma {:induction false} RunInv(run: seq<State>, i: nat)
    requires Run(run) && i < |run|
    ensures Inv(run[i])
  {
    hide Inv;
    if i == 0 {
      InitInv(run[0]);
    } else {
      RunInv(run, i - 1);
      assert Next(run[i - 1], run[i - 1 + 1]);
      NextInv(run[i - 1], run[i]);
    }
  }
}
