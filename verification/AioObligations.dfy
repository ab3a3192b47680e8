/** What the callers of aio/lua_aio.c owe, and that it is no more than is needed. */
module AioObligations {
  import opened AioProtocol
  import opened AioProof
  import opened AioRace
  import opened AioTheorems

  /** `_return` takes the block from PENDING whatever has become of the request. */
  ghost predicate BeginReturn(s: State, s': State, t: nat, b: nat)
    requires t < |s.threads|
  {
    && Ready(s, t, b) && s.blocks[b].state == Pending
    && s' == Update(s, t, Reap(b), b, s.blocks[b].(state := Returning))
  }

  /** A request the kernel holds is visible in its block's state. */
  predicate Owned(s: State) {
    forall b | 0 <= b < |s.blocks| :: s.blocks[b].kernel != NoRequest ==> s.blocks[b].state in {Pending, Returning}
  }

  ghost predicate Chain(path: seq<State>) {
    |path| > 0 && forall i | 0 <= i < |path| - 1 :: Next(path[i], path[i + 1])
  }

  ghost predicate ChainFrom(path: seq<State>, s: State, s': State) {
    Chain(path) && path[0] == s && path[|path| - 1] == s'
  }

  /** Steps of the machine lead from s to s'. */
  ghost predicate Leads(s: State, s': State) {
    exists path :: ChainFrom(path, s, s')
  }

  lemma LeadsHere(s: State)
    ensures Leads(s, s)
  {
    assert ChainFrom([s], s, s);
  }

  lemma LeadsOn(s: State, m: State, s': State, t: nat, b: nat)
    requires Leads(s, m) && t < |m.threads| && ThreadStep(m, s', t, b)
    ensures Leads(s, s')
  {
    hide ThreadStep;
    var path :| ChainFrom(path, s, m);
    assert Next(m, s');
    assert ChainFrom(path + [s'], s, s');
  }

  // --- on a completed request ---

  lemma {:induction false} ChainInv(path: seq<State>, k: nat)
    requires Chain(path) && Inv(path[0]) && k < |path|
    ensures Inv(path[k])
  {
    hide Inv;
    if k > 0 {
      ChainInv(path, k - 1);
      assert Next(path[k - 1], path[k - 1 + 1]);
      NextInv(path[k - 1], path[k]);
    }
  }

  lemma InvOwns(s: State)
    requires Inv(s)
    ensures Owned(s)
  {
    forall b | 0 <= b < |s.blocks| && s.blocks[b].kernel != NoRequest
      ensures s.blocks[b].state in {Pending, Returning}
    {
      assert BlockOk(s, b);
    }
  }

  lemma CompletedIsSafe(s: State, m: State, s': State, t: nat, b: nat)
    requires Inv(s) && t < |s.threads| && BeginReturn(s, m, t, b) && s.blocks[b].kernel == Done
    requires Leads(m, s')
    ensures Owned(s')
  {
    assert TryReturn(s, m, t, b);
    TryReturnInv(s, m, t, b);
    var path :| ChainFrom(path, m, s');
    hide Inv;
    ChainInv(path, |path| - 1);
    InvOwns(s');
  }

  // --- on any other ---

  /** The return fails and restores the saved state; the kernel keeps what it has. */
  lemma FailsBack(m: State, t: nat, b: nat) returns (s': State)
    requires t < |m.threads| && m.threads[t] == Reap(b) && b < |m.blocks| && m.blocks[b].kernel != Done
    ensures Leads(m, s') && s' == Update(m, t, Idle, b, m.blocks[b].(state := m.blocks[b].saved))
  {
    hide Leads;
    LeadsHere(m);
    var k := m.blocks[b];
    var l := Move(m, t, LoadSaved(b));
    assert l == Update(m, t, LoadSaved(b), b, k);
    assert DoReap(m, l, t, b, false);
    LeadsOn(m, m, l, t, b);
    var r := Move(l, t, Rollback(b, k.saved));
    assert DoLoadSaved(l, r, t, b);
    LeadsOn(m, l, r, t, b);
    s' := Update(r, t, Idle, b, k.(state := k.saved));
    assert DoRollback(r, s', t, b);
    LeadsOn(m, r, s', t, b);
  }

  lemma InProgressIsLost(s: State, m: State, t: nat, b: nat) returns (s': State)
    requires Inv(s) && t < |s.threads| && BeginReturn(s, m, t, b) && s.blocks[b].kernel == InProgress
    ensures Leads(m, s') && !Owned(s')
  {
    assert BlockOk(s, b);
    s' := FailsBack(m, t, b);
    assert s'.blocks[b].kernel == InProgress && s'.blocks[b].state in {Uninit, Init};
  }

  /** A store that ends an operation on b is still to come from u. */
  predicate AboutToStore(s: State, u: nat, b: nat) {
    && u < |s.threads| && b < |s.blocks| && Touches(s.threads[u], b) && s.blocks[b].saved in {Uninit, Init}
    && match s.threads[u]
       case Rollback(_, last) => last in {Uninit, Init}
       case LoadSaved(_) | CommitSaved(_) | CommitState(_) | Adopt(_, _) => true
       case _ => false
  }

  /** It comes, whoever has submitted in the meantime. */
  lemma {:induction false} StoreComes(m: State, s: State, u: nat, b: nat) returns (s': State)
    requires Leads(m, s) && AboutToStore(s, u, b) && s.blocks[b].kernel == InProgress
    ensures Leads(m, s') && !Owned(s')
    decreases Rank(s.threads[u])
  {
    s' := Onward(s, u);
    OnwardIsStep(s, u);
    hide Leads, ThreadStep, Rank;
    LeadsOn(m, s, s', u, b);
    if !s.threads[u].Rollback? && !s.threads[u].CommitState? {
      s' := StoreComes(m, s', u, b);
    } else {
      assert s'.blocks[b].kernel == InProgress && s'.blocks[b].state in {Uninit, Init};
    }
  }

  /** An idle thread with a userdata submits. */
  lemma Submits(m: State, s: State, t: nat, b: nat) returns (s': State)
    requires Leads(m, s) && t < |s.threads| && Ready(s, t, b) && s.blocks[b].state in {Uninit, Init}
    ensures Leads(m, s') && s' == Update(s, t, Idle, b, s.blocks[b].(state := Pending, kernel := InProgress))
  {
    hide Leads;
    var k := s.blocks[b];
    var p := Update(s, t, Submit(b, k.state), b, k.(state := Pending));
    assert if k.state == Uninit then TryRead(s, p, t, b) else TryWrite(s, p, t, b);
    LeadsOn(m, s, p, t, b);
    s' := Update(p, t, Idle, b, k.(state := Pending, kernel := InProgress));
    assert DoSubmit(p, s', t, b, true);
    LeadsOn(m, p, s', t, b);
  }

  /** A PENDING block without a request: some other thread is between its swap and its store. */
  lemma SomebodyStores(s: State, t: nat, b: nat) returns (u: nat)
    requires Inv(s) && t < |s.threads| && Ready(s, t, b)
    requires s.blocks[b].state == Pending && s.blocks[b].kernel == NoRequest
    ensures u < |s.threads| && u != t && (s.threads[u].Submit? || AboutToStore(s, u, b))
    ensures Touches(s.threads[u], b) && s.blocks[b].saved in {Uninit, Init}
  {
    assert BlockOk(s, b);
    u :| 0 <= u < |s.threads| && Busy(s.threads[u], b);
    assert ThreadOk(s, u);
  }

  lemma NoRequestIsLost(s: State, m: State, t: nat, b: nat) returns (s': State)
    requires Inv(s) && t < |s.threads| && BeginReturn(s, m, t, b) && s.blocks[b].kernel == NoRequest
    ensures Leads(m, s') && !Owned(s')
  {
    var u := SomebodyStores(s, t, b);
    hide Inv;
    var r := FailsBack(m, t, b);
    hide Leads;
    assert r.threads[u] == s.threads[u];
    if r.threads[u].Submit? {
      s' := Update(r, u, Idle, b, r.blocks[b].(kernel := InProgress));
      assert DoSubmit(r, s', u, b, true);
      LeadsOn(m, r, s', u, b);
      assert s'.blocks[b].kernel == InProgress;
    } else {
      var p := Submits(m, r, t, b);
      s' := StoreComes(m, p, u, b);
    }
  }

  /**
   From any state in which the invariant holds, a return that takes block b from PENDING leaves
   ownership intact in everything that may follow exactly when the request was completed.
   */
  lemma ReturnNeedsCompletion(s: State, m: State, t: nat, b: nat)
    requires Inv(s) && t < |s.threads| && BeginReturn(s, m, t, b)
    ensures (forall s' :: Leads(m, s') ==> Owned(s')) <==> s.blocks[b].kernel == Done
  {
    hide Leads, Owned, Inv;
    match s.blocks[b].kernel
    case Done =>
      forall s' | Leads(m, s') ensures Owned(s') {
        CompletedIsSafe(s, m, s', t, b);
      }
    case InProgress =>
      var s' := InProgressIsLost(s, m, t, b);
    case NoRequest =>
      var s' := NoRequestIsLost(s, m, t, b);
  }

  /** It happens: in a run of two threads, one begins a return while the request is still in progress. */
  lemma EarlyReturnHappens() returns (run: seq<State>, m: State, s': State)
    ensures Run(run) && run[|run| - 1].blocks != [] && run[|run| - 1].blocks[0].kernel == InProgress
    ensures |run[|run| - 1].threads| == 2 && BeginReturn(run[|run| - 1], m, 1, 0) && Leads(m, s') && !Owned(s')
  {
    run := BufferRaceHappens();
    var s := run[|run| - 1];
    RunInv(run, |run| - 1);
    m := Update(s, 1, Reap(0), 0, s.blocks[0].(state := Returning));
    s' := InProgressIsLost(s, m, 1, 0);
  }

  // --- waiting for any request, and dropping the last reference ---

  /** Nobody is in the middle of an operation on a freed block. */
  ghost predicate Untouched(s: State) {
    forall b, u | 0 <= b < |s.blocks| && 0 <= u < |s.threads| && s.blocks[b].freed :: !Touches(s.threads[u], b)
  }

  lemma ChainIsSafe(m: State, s': State)
    requires Inv(m) && Leads(m, s')
    ensures Owned(s') && Untouched(s')
  {
    var path :| ChainFrom(path, m, s');
    ChainInv(path, |path| - 1);
    InvOwns(s');
    forall b, u | 0 <= b < |s'.blocks| && 0 <= u < |s'.threads| && s'.blocks[b].freed
      ensures !Touches(s'.threads[u], b)
    {
      assert ThreadOk(s', u);
    }
  }

  /** A thread that is freeing the block does so, whoever else is still at it. */
  lemma {:induction false} FreesAnyway(m: State, s: State, u: nat, t: nat, b: nat) returns (s': State)
    requires Leads(m, s) && u < |s.threads| && t < |s.threads| && u != t && b < |s.blocks|
    requires Freeing(s.threads[u], b) && Touches(s.threads[t], b)
    ensures Leads(m, s') && !Untouched(s')
    decreases Rank(s.threads[u])
  {
    s' := Onward(s, u);
    OnwardIsStep(s, u);
    hide Leads, ThreadStep, Rank;
    LeadsOn(m, s, s', u, b);
    assert s'.threads[t] == s.threads[t];
    if !s.threads[u].FreeMemory? {
      s' := FreesAnyway(m, s', u, t, b);
    } else {
      assert s'.blocks[b].freed;
    }
  }

  /** `aio_waitcomplete` yields any completed request. */
  ghost predicate BeginWait(s: State, s': State, t: nat, b: nat, ok: bool)
    requires t < |s.threads|
  {
    && s.threads[t] == Idle && b < |s.blocks| && s.blocks[b].kernel == Done
    && s' == Update(s, t, Adopt(b, ok), b, s.blocks[b].(kernel := NoRequest))
  }

  /** Racing with a return: the return restores the saved state, a new request starts, and INIT is stored over it. */
  lemma RaceIsLost(s: State, m: State, t: nat, b: nat, ok: bool) returns (s': State)
    requires Inv(s) && t < |s.threads| && BeginWait(s, m, t, b, ok) && s.blocks[b].state == Returning
    ensures Leads(m, s') && !Owned(s')
  {
    assert BlockOk(s, b);
    var v :| 0 <= v < |s.threads| && Busy(s.threads[v], b);
    assert ThreadOk(s, v);
    hide Inv;
    assert m.threads[v] == Reap(b) && v in m.blocks[b].owners;
    var r := FailsBack(m, v, b);
    var p := Submits(m, r, v, b);
    s' := StoreComes(m, p, t, b);
  }

  lemma UnreferencedIsLost(s: State, m: State, t: nat, b: nat, ok: bool) returns (s': State)
    requires Inv(s) && t < |s.threads| && BeginWait(s, m, t, b, ok) && |s.blocks[b].owners| == 0
    ensures Leads(m, s') && !Untouched(s')
  {
    assert BlockOk(s, b);
    var u :| 0 <= u < |s.threads| && Freeing(s.threads[u], b);
    hide Inv;
    LeadsHere(m);
    s' := FreesAnyway(m, m, u, t, b);
  }

  /**
   A `waitcomplete` that yields block b leaves everything that may follow in order exactly when no
   return is at work on the block and some userdata for it is alive.
   */
  lemma WaitNeedsReference(s: State, m: State, t: nat, b: nat, ok: bool)
    requires Inv(s) && t < |s.threads| && BeginWait(s, m, t, b, ok)
    ensures (forall s' :: Leads(m, s') ==> Owned(s') && Untouched(s'))
       <==> s.blocks[b].state != Returning && |s.blocks[b].owners| > 0
  {
    if s.blocks[b].state == Returning {
      var s' := RaceIsLost(s, m, t, b, ok);
    } else if |s.blocks[b].owners| == 0 {
      var s' := UnreferencedIsLost(s, m, t, b, ok);
    } else {
      assert WaitComplete(s, m, t, b, ok);
      WaitCompleteInv(s, m, t, b, ok);
      hide Inv, Leads, Owned, Untouched;
      forall s' | Leads(m, s') ensures Owned(s') && Untouched(s') {
        ChainIsSafe(m, s');
      }
    }
  }

  /** The last userdata is finalised. */
  ghost predicate BeginRelease(s: State, s': State, t: nat, b: nat)
    requires t < |s.threads|
  {
    && Ready(s, t, b) && s.blocks[b].refs == 1
    && s' == Update(s, t, FreeLoad(b), b, s.blocks[b].(refs := 0, owners := s.blocks[b].owners - multiset{t}))
  }

  /** That is in order exactly when no thread has been yielded the block and not retained it yet. */
  lemma LastReleaseNeedsNoAdoption(s: State, m: State, t: nat, b: nat)
    requires Inv(s) && t < |s.threads| && BeginRelease(s, m, t, b)
    ensures (forall s' :: Leads(m, s') ==> Owned(s') && Untouched(s')) <==> !Adopting(s, b)
  {
    if Adopting(s, b) {
      var u :| 0 <= u < |s.threads| && s.threads[u].Adopt? && s.threads[u].b == b;
      assert m.threads[u] == s.threads[u];
      LeadsHere(m);
      var s' := FreesAnyway(m, m, t, u, b);
    } else {
      assert Release(s, m, t, b);
      ReleaseInv(s, m, t, b);
      hide Inv, Leads, Owned, Untouched;
      forall s' | Leads(m, s') ensures Owned(s') && Untouched(s') {
        ChainIsSafe(m, s');
      }
    }
  }
}
