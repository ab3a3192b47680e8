/** A run in which a timed call exchanges normally and yet does not get `true` first. */
module RendezvousFlag {
  import opened Wrappers
  import opened Lua
  import opened DeepCopy
  import opened Exchange
  import opened Rendezvous
  import opened RendezvousTheorems
  import opened TimedResults

  /** Thread 0 calls `timedexchange(0, 0)`, thread 1 calls `exchange(5)`. */
  function FlagState(k: nat): State {
    var w := Thread(Idle, Timed, 0, 0, [Userdata(9), Integer(0), Integer(0)], 0);
    var a := Thread(Idle, Plain, 1, 0, [Userdata(9), Integer(5)], 1);
    var counted, served := w.(stack := w.stack + [Integer(0)]), w.(stack := w.stack + [Integer(5), Integer(1)]);
    var done := w.(stack := w.stack + [Integer(5)], nres := 1);
    var c, d := Call(0, Timed, w.stack, [], None, Running), Call(1, Plain, a.stack, [Integer(5)], None, Running);
    var before, after := [c, d], [c.(peer := Some(1)), d.(peer := Some(0))];
    match k
    case 0 => State([w, a], None, None, [])
    case 1 => State([w.(pc := Locking), a], None, None, [c])
    case 2 => State([w.(pc := Testing), a], Some(0), None, [c])
    case 3 => State([counted.(pc := Registered), a], Some(0), Some(0), [c])
    case 4 => State([counted.(pc := Blocked), a], None, Some(0), [c])
    case 5 => State([counted.(pc := Blocked), a.(pc := Locking)], None, Some(0), before)
    case 6 => State([counted.(pc := Blocked), a.(pc := Testing)], Some(1), Some(0), before)
    case 7 => State([counted.(pc := Blocked), a.(pc := Counting)], Some(1), Some(0), before)
    case 8 => State([w.(pc := Blocked), a.(pc := CopyingIn)], Some(1), Some(0), after)
    case 9 => State([w.(pc := Blocked), a.(pc := CopyingOut)], Some(1), Some(0), after)
    case 10 => State([served.(pc := Blocked), a.(pc := Clearing)], Some(1), Some(0), after)
    case 11 => State([served.(pc := Blocked), a.(pc := Signalling)], Some(1), None, after)
    case 12 => State([served.(pc := Woken), a.(pc := Unlocking)], Some(1), None, after)
    case 13 => State([served.(pc := Woken), a.(pc := Returning)], None, None, after)
    case 14 => State([served.(pc := Resumed), a.(pc := Returning)], Some(0), None, after)
    case 15 => State([done.(pc := Unlocking), a.(pc := Returning)], Some(0), None, after)
    case 16 => State([done.(pc := Returning), a.(pc := Returning)], None, None, after)
    case _ =>
      State([done, a.(pc := Returning)], None, None,
            [after[0].(outcome := Returned([Integer(5)], [Integer(0), Integer(5)])), after[1]])
  }

  function Mover(k: nat): (t: nat)
    ensures t < 2 == |FlagState(k).threads|
  {
    if 4 <= k < 13 then 1 else 0
  }

  lemma Registers(k: nat)
    requires k < 4
    ensures Step(ASSUMED, FlagState(k), FlagState(k + 1), 0)
  {
    var s, s' := FlagState(k), FlagState(k + 1);
    match k {
      case 0 =>
        var frame := s.threads[0].stack;
        assert frame[3..] == [] && Begin(s, s', 0, Timed, frame);
      case 1 => assert Lock(s, s', 0);
      case 2 => assert Register(s, s', 0);
      case 3 => assert Sleep(s, s', 0);
    }
  }

  lemma FindsWaiter(k: nat)
    requires 4 <= k < 8
    ensures Step(ASSUMED, FlagState(k), FlagState(k + 1), 1)
  {
    var s, s' := FlagState(k), FlagState(k + 1);
    match k {
      case 4 =>
        var frame := s.threads[1].stack;
        assert frame[1..] == [Integer(5)] && Begin(s, s', 1, Plain, frame);
      case 5 => assert Lock(s, s', 1);
      case 6 => assert FindWaiter(s, s', 1);
      case 7 =>
        assert TakeCount(s, s', 1, 0);
        assert MeetsWith(s, s', 1, 0);
    }
  }

  lemma CopiesBothWays(k: nat)
    requires 8 <= k < 10
    ensures Step(ASSUMED, FlagState(k), FlagState(k + 1), 1)
  {
    var s, s' := FlagState(k), FlagState(k + 1);
    var a, w := s.threads[1].stack, s.threads[0].stack;
    if k == 8 {
      CopiedAll(w, a, |w| + 1, 0, GlobalsOf(1));
      assert a + Copies(Window(w, |w| + 1, 0), GlobalsOf(1)) == a;
      assert CopyIn(s, s', 1, 0, a, w, 0, Str(""));
    } else {
      assert Window(a, 2, 1) == [Integer(5)] && Copies([Integer(5)], GlobalsOf(0)) == [Integer(5)];
      CopiedAll(a, w, 2, 1, GlobalsOf(0));
      assert w + [Integer(5)] + [Integer(1)] == w + [Integer(5), Integer(1)];
      assert CopyOut(s, s', 1, 0, a, w + [Integer(5)], 0, Str(""));
    }
    assert MeetsWith(s, s', 1, 0);
  }

  lemma Leaves(k: nat)
    requires 10 <= k < 13
    ensures Step(ASSUMED, FlagState(k), FlagState(k + 1), 1)
  {
    var s, s' := FlagState(k), FlagState(k + 1);
    match k {
      case 10 => assert Clear(s, s', 1);
      case 11 =>
        assert s'.threads == Signalled(s.threads, 1, {0});
        assert Signal(s, s', 1, {0});
      case 12 => assert Unlock(s, s', 1);
    }
  }

  lemma WakesUp(k: nat)
    requires 13 <= k < 16
    ensures Step(ASSUMED, FlagState(k), FlagState(k + 1), 0)
  {
    var s, s' := FlagState(k), FlagState(k + 1);
    match k {
      case 13 => assert Reacquire(s, s', 0);
      case 14 =>
        assert s.threads[0].stack[..4] == s'.threads[0].stack;
        assert ReadCount(s, s', 0);
      case 15 => assert Unlock(s, s', 0);
    }
  }

  lemma HandsOver()
    ensures Return(FlagState(16), FlagState(17), 0)
  {
    var stack := FlagState(16).threads[0].stack;
    assert stack == [Userdata(9), Integer(0), Integer(0), Integer(5)];
    assert Handed(stack, 1) == [Integer(5)] && Handed(stack, 2) == [Integer(0), Integer(5)];
  }

  lemma ReturnIsStep(s: State, s': State, t: nat)
    requires t < |s.threads| && Return(s, s', t)
    ensures Step(ASSUMED, s, s', t)
  {
  }

  lemma {:induction false} FlagRun(k: nat) returns (run: seq<State>)
    requires k <= 17
    ensures Run(ASSUMED, run) && run[|run| - 1] == FlagState(k)
  {
    if k == 0 {
      run := [FlagState(0)];
    } else {
      run := FlagRun(k - 1);
      var t := Mover(k - 1);
      hide Step, FlagState;
      if k <= 4 {
        Registers(k - 1);
      } else if k <= 8 {
        FindsWaiter(k - 1);
      } else if k <= 10 {
        CopiesBothWays(k - 1);
      } else if k <= 13 {
        Leaves(k - 1);
      } else if k <= 16 {
        WakesUp(k - 1);
      } else {
        HandsOver();
        ReturnIsStep(FlagState(16), FlagState(17), t);
      }
      run := Extend(ASSUMED, run, FlagState(k), t);
    }
  }

  /** The deadline takes the place of the flag: `timedexchange(0, 0)` meeting `exchange(5)` gets 0, 5. */
  lemma FlagIsLost() returns (run: seq<State>)
    ensures Run(ASSUMED, run)
    ensures var calls := run[|run| - 1].calls;
            && |calls| == 2 && calls[0].kind == Timed && calls[0].peer == Some(1)
            && calls[0].outcome == Returned([Integer(5)], [Integer(0), Integer(5)])
  {
    run := FlagRun(17);
  }
}
