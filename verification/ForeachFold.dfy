/**
 The higher-order iterators of libifconfig/lua_ifconfig.c: a stack program that calls a Lua
 callback for each interface or address and keeps the accumulator it returns.
 */
module ForeachFold {
  import opened Wrappers
  import opened Lua

  /** How calling the callback ends; `world` stands for everything a callback may read or change. */
  datatype Outcome<W> = Returned(world: W, results: seq<Value>) | Raised(world: W, message: Value)

  /** What calling a function value with arguments does. */
  type Semantics<!W> = (W, Value, seq<Value>) -> Outcome<W>

  /** A fold in progress, or ended by an error raised in the callback. */
  datatype Progress<W> = Going(world: W, acc: Value) | Stopped(world: W, message: Value)

  /** A call adjusted to one result. */
  function First(vs: seq<Value>): Value {
    if vs == [] then Nil else vs[0]
  }

  /** One item: acc' = cb(handle, item, acc). */
  function Step<W>(run: Semantics<W>, h: Value, cb: Value, p: Progress<W>, item: nat): Progress<W> {
    match p
    case Stopped(_, _) => p
    case Going(w, acc) =>
      match run(w, cb, [h, Userdata(item), acc])
      case Returned(w', vs) => Going(w', First(vs))
      case Raised(w', m) => Stopped(w', m)
  }

  /** The left fold of the callback over the items. */
  function Fold<W>(run: Semantics<W>, h: Value, cb: Value, p: Progress<W>, items: seq<nat>): Progress<W>
    decreases |items|
  {
    if items == [] then p
    else Step(run, h, cb, Fold(run, h, cb, p, items[..|items| - 1]), items[|items| - 1])
  }

  /** `lua_call` with one result: arguments and function are replaced by it. */
  method Call<W>(L: LuaState, nargs: nat, run: Semantics<W>, w: W) returns (r: Outcome<W>)
    requires nargs + 1 <= |L.stack|
    modifies L`stack
    ensures var base := |old(L.stack)| - nargs - 1;
            && r == run(w, old(L.stack)[base], old(L.stack)[base + 1..])
            && (r.Returned? ==> L.stack == old(L.stack)[..base] + [First(r.results)])
  {
    var base := |L.stack| - nargs - 1;
    r := run(w, L.stack[base], L.stack[base + 1..]);
    L.Pop(nargs + 1);
    if r.Returned? {
      L.Push(First(r.results));
    }
  }

  /** `foreach_cb`: from (h, cb, acc) to (h, cb, acc') by stack shuffling alone. */
  method ForeachCb<W>(L: LuaState, ifa: nat, run: Semantics<W>, w: W) returns (p: Progress<W>)
    requires |L.stack| == 3
    modifies L`stack
    ensures p == Step(run, old(L.stack)[0], old(L.stack)[1], Going(w, old(L.stack)[2]), ifa)
    ensures var r := run(w, old(L.stack)[1], [old(L.stack)[0], Userdata(ifa), old(L.stack)[2]]);
            && (r.Raised? ==> p == Stopped(r.world, r.message))
            && (r.Returned? ==>
                  && p == Going(r.world, if r.results == [] then Nil else r.results[0])
                  && L.stack == [old(L.stack)[0], old(L.stack)[1], p.acc])
  {
    ghost var h, cb, acc := L.stack[0], L.stack[1], L.stack[2];
    L.PushValue(1);
    L.PushValue(2);
    assert L.stack == [h, cb, acc, h, cb];
    L.Insert(3);
    assert L.stack == [h, cb, cb, acc, h];
    L.Insert(4);
    assert L.stack == [h, cb, cb, h, acc];
    L.Push(Userdata(ifa));
    assert L.stack == [h, cb, cb, h, acc, Userdata(ifa)];
    L.Insert(5);
    assert L.stack == [h, cb, cb, h, Userdata(ifa), acc];
    var r := Call(L, 3, run, w);
    match r {
      case Returned(w', vs) => p := Going(w', First(vs));
      case Raised(w', m) => p := Stopped(w', m);
    }
  }

  /** The library's own loop, calling `foreach_cb` for each item it finds. */
  method Walk<W>(L: LuaState, items: seq<nat>, run: Semantics<W>, w: W) returns (p: Progress<W>)
    requires |L.stack| == 3
    modifies L`stack
    ensures p == Fold(run, old(L.stack)[0], old(L.stack)[1], Going(w, old(L.stack)[2]), items)
    ensures p.Going? ==> L.stack == [old(L.stack)[0], old(L.stack)[1], p.acc]
  {
    ghost var h, cb, start := L.stack[0], L.stack[1], Going(w, L.stack[2]);
    p := Going(w, L.stack[2]);
    var i := 0;
    while p.Going? && i < |items|
      invariant i <= |items|
      invariant p == Fold(run, h, cb, start, items[..i])
      invariant p.Going? ==> L.stack == [h, cb, p.acc]
    {
      assert items[..i + 1][..i] == items[..i];
      p := ForeachCb(L, items[i], run, p.world);
      i := i + 1;
    }
    assert items == items[..i] + items[i..];
    FoldAppend(run, h, cb, start, items[..i], items[i..]);
    if p.Stopped? {
      ErrorEndsFold(run, h, cb, p, items[i..]);
    } else {
      assert items[i..] == [];
    }
  }

  datatype Failure = BadArgument(index: nat) | IterationFailed | CallbackError(message: Value)

  /** Argument counts are evened out to exactly `max`, a missing last one being nil. */
  method Normalise(L: LuaState, max: nat)
    requires max >= 1 && |L.stack| >= max - 1
    modifies L`stack
    ensures |L.stack| == max
    ensures forall i | 0 <= i < max :: L.stack[i] == if i < |old(L.stack)| then old(L.stack)[i] else Nil
  {
    var n := |L.stack|;
    if n == max - 1 {
      L.Push(Nil);
    } else if n > max {
      L.Pop(n - max);
    }
  }

  /** `handle:foreach_iface(cb, acc)`: the single result is the top of the stack. */
  method ForeachIface<W>(L: LuaState, handles: set<nat>, items: seq<nat>, status: int, run: Semantics<W>, w: W)
    returns (r: Result<Value, Failure>)
    modifies L`stack
    ensures var args := old(L.stack);
            if |args| < 1 || !args[0].Userdata? || args[0].id !in handles then r == Err(BadArgument(1))
            else if |args| < 2 || !(args[1].Closure? || args[1].CFunction?) then r == Err(BadArgument(2))
            else
              var p := Fold(run, args[0], args[1], Going(w, if |args| < 3 then Nil else args[2]), items);
              && (p.Stopped? ==> r == Err(CallbackError(p.message)))
              && (p.Going? && status != 0 ==> r == Err(IterationFailed))
              && (p.Going? && status == 0 ==> r == Ok(p.acc) && L.stack == [args[0], args[1], p.acc])
  {
    if |L.stack| < 1 || !L.At(1).Userdata? || L.At(1).id !in handles {
      return Err(BadArgument(1));
    }
    if |L.stack| < 2 || !IsFunction(L.At(2)) {
      return Err(BadArgument(2));
    }
    Normalise(L, 3);
    var p := Walk(L, items, run, w);
    if p.Stopped? {
      return Err(CallbackError(p.message)); // the error passes through the library
    }
    r := if status != 0 then Err(IterationFailed) else Ok(L.At(-1));
  }

  /** `handle:foreach_ifaddr(iface, cb, acc)`: the interface is taken out of the frame first. */
  method ForeachIfaddr<W>(L: LuaState, handles: set<nat>, ifaces: set<nat>, addrs: nat -> seq<nat>,
                          run: Semantics<W>, w: W)
    returns (r: Result<Value, Failure>)
    modifies L`stack
    ensures var args := old(L.stack);
            if |args| < 1 || !args[0].Userdata? || args[0].id !in handles then r == Err(BadArgument(1))
            else if |args| < 2 || !args[1].Userdata? || args[1].id !in ifaces then r == Err(BadArgument(2))
            else if |args| < 3 || !(args[2].Closure? || args[2].CFunction?) then r == Err(BadArgument(3))
            else
              var start := Going(w, if |args| < 4 then Nil else args[3]);
              var p := Fold(run, args[0], args[2], start, addrs(args[1].id));
              && (p.Stopped? ==> r == Err(CallbackError(p.message)))
              && (p.Going? ==> r == Ok(p.acc) && L.stack == [args[0], args[2], p.acc])
  {
    if |L.stack| < 1 || !L.At(1).Userdata? || L.At(1).id !in handles {
      return Err(BadArgument(1));
    }
    if |L.stack| < 2 || !L.At(2).Userdata? || L.At(2).id !in ifaces {
      return Err(BadArgument(2));
    }
    var ifa := L.At(2).id;
    if |L.stack| < 3 || !IsFunction(L.At(3)) {
      return Err(BadArgument(3));
    }
    Normalise(L, 4);
    L.Remove(2);
    var p := Walk(L, addrs(ifa), run, w);
    r := if p.Stopped? then Err(CallbackError(p.message)) else Ok(L.At(-1));
  }

  // --- what a fold is ---

  /** Folding over a concatenation is folding twice. */
  lemma {:induction false} FoldAppend<W>(run: Semantics<W>, h: Value, cb: Value, p: Progress<W>,
                                         a: seq<nat>, b: seq<nat>)
    ensures Fold(run, h, cb, p, a + b) == Fold(run, h, cb, Fold(run, h, cb, p, a), b)
    decreases |b|
  {
    if b == [] {
      assert a + b == a;
    } else {
      var n := |b| - 1;
      assert (a + b)[..|a| + n] == a + b[..n];
      FoldAppend(run, h, cb, p, a, b[..n]);
    }
  }

  /** Nothing is called after an error. */
  lemma {:induction false} ErrorEndsFold<W>(run: Semantics<W>, h: Value, cb: Value, p: Progress<W>, items: seq<nat>)
    requires p.Stopped?
    ensures Fold(run, h, cb, p, items) == p
    decreases |items|
  {
    if items != [] {
      ErrorEndsFold(run, h, cb, p, items[..|items| - 1]);
    }
  }

  /** The items a run of the fold calls the callback with, oldest first. */
  function Visited<W>(run: Semantics<W>, h: Value, cb: Value, p: Progress<W>, items: seq<nat>): seq<nat>
    decreases |items|
  {
    if items == [] then []
    else
      var n := |items| - 1;
      Visited(run, h, cb, p, items[..n])
      + if Fold(run, h, cb, p, items[..n]).Going? then [items[n]] else []
  }

  /** Calls go through the items in order without a gap: all of them, unless one raises ... */
  lemma {:induction false} VisitsInOrder<W>(run: Semantics<W>, h: Value, cb: Value, p: Progress<W>, items: seq<nat>)
    ensures Visited(run, h, cb, p, items) <= items
    ensures Fold(run, h, cb, p, items).Going? ==> Visited(run, h, cb, p, items) == items
    decreases |items|
  {
    if items != [] {
      var n := |items| - 1;
      VisitsInOrder(run, h, cb, p, items[..n]);
      assert items == items[..n] + [items[n]];
      OneMore(run, h, cb, p, items[..n], items[n]);
      hide Fold, Visited, Step;
    }
  }

  /** One more item: nothing after an error, otherwise one call with the handle, the item and the accumulator. */
  lemma OneMore<W>(run: Semantics<W>, h: Value, cb: Value, p: Progress<W>, items: seq<nat>, item: nat)
    ensures Fold(run, h, cb, p, []) == p && Visited(run, h, cb, p, []) == []
    ensures var before, after := Fold(run, h, cb, p, items), Fold(run, h, cb, p, items + [item]);
            && (before.Stopped? ==> after == before)
            && (before.Going? ==>
                  var r := run(before.world, cb, [h, Userdata(item), before.acc]);
                  && (r.Raised? ==> after == Stopped(r.world, r.message))
                  && (r.Returned? ==> after == Going(r.world, if r.results == [] then Nil else r.results[0])))
            && Visited(run, h, cb, p, items + [item])
               == Visited(run, h, cb, p, items) + if before.Going? then [item] else []
  {
    assert (items + [item])[..|items|] == items;
  }

  /** ... and then they end with the first that does, whose error is the outcome. */
  lemma {:induction false} ErrorIsLastVisit<W>(run: Semantics<W>, h: Value, cb: Value, p: Progress<W>, items: seq<nat>)
    returns (k: nat)
    requires p.Going? && Fold(run, h, cb, p, items).Stopped?
    ensures k < |items| && Visited(run, h, cb, p, items) == items[..k + 1]
    ensures Fold(run, h, cb, p, items[..k]).Going?
    ensures Fold(run, h, cb, p, items[..k + 1]) == Fold(run, h, cb, p, items)
    decreases |items|
  {
    k := |items| - 1;
    var front := items[..k];
    assert items == front + [items[k]] && items[..k + 1] == items;
    OneMore(run, h, cb, p, front, items[k]);
    hide Fold, Visited, Step;
    if Fold(run, h, cb, p, front).Going? {
      VisitsInOrder(run, h, cb, p, front);
    } else {
      k := ErrorIsLastVisit(run, h, cb, p, front);
      assert front[..k] == items[..k] && front[..k + 1] == items[..k + 1];
    }
  }
}
