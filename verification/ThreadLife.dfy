/**
 `pthread.create` and `thread:join` (libpthread/lua_pthread.c): a function and its arguments are
 copied into a fresh Lua state, run there, and the results copied back.
 */
module ThreadLife {
  import opened Wrappers
  import opened Lua
  import opened DeepCopy

  /** How a protected call ends. */
  datatype Finish = Results(values: seq<Value>) | Error(message: Value)

  /** What calling a function value with arguments does in the thread's own state. */
  type Semantics = (Value, seq<Value>) -> Finish

  datatype Failure = NotAFunction(index: int) | NotSerializable(index: int)

  /** `l_pthread_create` up to starting the thread; an attribute table may come first. */
  method Create(L: LuaState, globals: nat) returns (r: Result<LuaState, Failure>)
    modifies L`stack
    ensures var fnidx := if old(L.stack) != [] && old(L.stack)[0].Table? then 1 else 0;
            var given := old(L.stack)[fnidx..];
            && (r.Ok? <==> |given| > 0 && (given[0].Closure? || given[0].CFunction?) && AllCopyable(given))
            && (r.Ok? ==> L.stack == old(L.stack) && fresh(r.value) && r.value.globals == globals
                          && r.value.stack == Copies(given, globals) && r.value.TablesOk())
            && (r == Err(NotAFunction(fnidx + 1)) <==>
                  given == [] || !(given[0].Closure? || given[0].CFunction?))
            && (r.Err? && r.error != NotAFunction(fnidx + 1) ==> r.error.NotSerializable?)
            && (r.Err? && r.error.NotSerializable? ==>
                  && fnidx < r.error.index <= |old(L.stack)|
                  && !Copyable(old(L.stack)[r.error.index - 1])
                  && AllCopyable(old(L.stack)[fnidx..r.error.index - 1]))
  {
    ghost var start := L.stack;
    var n := |L.stack|;
    var fnidx := 1;
    if n > 0 && L.At(1).Table? {
      n := n - 1;
      fnidx := 2;
    }
    if fnidx > |L.stack| || !IsFunction(L.At(fnidx)) {
      return Err(NotAFunction(fnidx));
    }
    var l := new LuaState(globals);
    ghost var given := Window(L.stack, fnidx, n);
    assert given == start[fnidx - 1..];
    var error := CopyN(L, l, fnidx, n);
    if error != 0 {
      assert given[..error - fnidx] == start[fnidx - 1..error - 1];
      return Err(NotSerializable(error));
    }
    assert l.stack == Copies(given, globals);
    r := Ok(l);
  }

  /** `thread_wrapper` and `thread_kfunction`: a protected call, then the status goes first. */
  method ThreadMain(l: LuaState, run: Semantics)
    requires |l.stack| > 0 && l.TablesOk()
    modifies l`stack, l`tables, l`nextRef
    ensures var finish := run(old(l.stack)[0], old(l.stack)[1..]);
            l.stack == if finish.Results? then [Boolean(true)] + finish.values else [Boolean(false), finish.message]
  {
    var nargs := |l.stack| - 1;
    ghost var frame := l.stack;
    l.NewTable(); // initcleanupstack
    l.Pop(1);
    assert l.stack == frame;
    var ok := PCallMultiple(l, nargs, run);
    ghost var results := l.stack;
    assert frame[..0] == [] && (ok ==> results == run(frame[0], frame[1..]).values);
    l.Push(Boolean(ok));
    assert l.stack == results + [Boolean(ok)];
    l.Insert(1);
    assert l.stack == [Boolean(ok)] + results;
  }

  /** `lua_pcallk` with LUA_MULTRET: results, or one error value, replace the call. */
  method PCallMultiple(l: LuaState, nargs: nat, run: Semantics) returns (ok: bool)
    requires nargs + 1 <= |l.stack|
    modifies l`stack
    ensures var base := |old(l.stack)| - nargs - 1;
            var finish := run(old(l.stack)[base], old(l.stack)[base + 1..]);
            && ok == finish.Results?
            && l.stack == old(l.stack)[..base] + (if ok then finish.values else [finish.message])
  {
    var base := |l.stack| - nargs - 1;
    var finish := run(l.stack[base], l.stack[base + 1..]);
    l.Pop(nargs + 1);
    match finish {
      case Results(vs) =>
        l.PushAll(vs);
        ok := true;
      case Error(m) =>
        l.Push(m);
        ok := false;
    }
  }

  /** `l_pthread_join` on a thread that was not cancelled; None is the error it raises. */
  method Join(L: LuaState, l: LuaState) returns (nresults: Option<nat>)
    requires L != l
    modifies L`stack, l`stack
    ensures nresults.Some? <==> AllCopyable(old(l.stack))
    ensures nresults.Some? ==> nresults.value == |old(l.stack)|
                               && L.stack == old(L.stack) + Copies(old(l.stack), L.globals)
  {
    var n := |l.stack|;
    assert Window(l.stack, 1, n) == l.stack;
    if n > 0 {
      var error := CopyN(l, L, 1, n);
      if error != 0 {
        return None;
      }
    } else {
      assert L.stack == L.stack + Copies(l.stack, L.globals);
    }
    nresults := Some(n);
  }

  /**
   End to end, with or without an attribute table first.  If the function and its arguments can be copied,
   the thread runs copies of them, and `join` yields true and copies of exactly the function's results,
   in order, or false and a copy of its error, provided those can be copied too.
   */
  method CreateAndJoin(L: LuaState, globals: nat, run: Semantics)
    returns (r: Option<nat>, ghost finish: Option<Finish>)
    modifies L`stack
    ensures var given := old(L.stack)[if old(L.stack) != [] && old(L.stack)[0].Table? then 1 else 0..];
            && (finish.Some? <==>
                  given != [] && (given[0].Closure? || given[0].CFunction?) && AllCopyable(given))
            && (finish.Some? ==> finish.value == run(CopyOf(given[0], globals), Copies(given[1..], globals)))
    ensures r.Some? <==> finish.Some? && if finish.value.Results? then AllCopyable(finish.value.values)
                                         else Copyable(finish.value.message)
    ensures r.Some? && finish.value.Results? ==>
              var vs := finish.value.values;
              r.value == 1 + |vs| && L.stack == old(L.stack) + [Boolean(true)] + Copies(vs, L.globals)
    ensures r.Some? && finish.value.Error? ==>
              var m := finish.value.message;
              r.value == 2 && L.stack == old(L.stack) + [Boolean(false), CopyOf(m, L.globals)]
  {
    ghost var given := L.stack[if L.stack != [] && L.stack[0].Table? then 1 else 0..];
    var created := Create(L, globals);
    if created.Err? {
      return None, None;
    }
    assert Copies(given, globals)[1..] == Copies(given[1..], globals);
    finish := Some(run(CopyOf(given[0], globals), Copies(given[1..], globals)));
    var l := created.value;
    ThreadMain(l, run);
    match finish.value {
      case Results(vs) => ResultsCopied(vs, L.globals);
      case Error(m) => ErrorCopied(m, L.globals);
    }
    r := Join(L, l);
  }

  /** Copying the status with what follows it. */
  lemma ResultsCopied(vs: seq<Value>, home: nat)
    ensures AllCopyable([Boolean(true)] + vs) == AllCopyable(vs)
    ensures Copies([Boolean(true)] + vs, home) == [Boolean(true)] + Copies(vs, home)
  {
    var all := [Boolean(true)] + vs;
    LeafCopy(Boolean(true), home);
    hide Copyable, CopyOf;
    assert all[0] == Boolean(true) && all[1..] == vs;
    assert forall v <- vs :: v in all;
    assert Copies(all, home)[1..] == Copies(vs, home);
  }

  lemma ErrorCopied(m: Value, home: nat)
    ensures AllCopyable([Boolean(false), m]) == Copyable(m)
    ensures Copies([Boolean(false), m], home) == [Boolean(false), CopyOf(m, home)]
  {
    assert [Boolean(false), m][1] == m;
  }

  /** A thread that returns its arguments hands them back as if they had been copied once. */
  lemma EchoRoundTrip(args: seq<Value>, globals: nat, home: nat)
    requires AllCopyable(args)
    ensures AllCopyable(Copies(args, globals))
    ensures Copies(Copies(args, globals), home) == Copies(args, home)
  {
    forall k | 0 <= k < |args|
      ensures CopyOf(CopyOf(args[k], globals), home) == CopyOf(args[k], home)
      ensures Copyable(CopyOf(args[k], globals))
    {
      assert args[k] in args;
      CopyOfCopy(args[k], globals, home);
    }
  }
}
