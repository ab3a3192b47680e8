/**
 The cleanup stack a thread keeps in its Lua registry: `cleanup.push`, `cleanup.pop` and
 `thread_cleanup` of libpthread/lua_pthread.c.
 */
module CleanupStack {
  import opened Lua
  import opened LuaTables
  import opened Wrappers

  // --- the stack ---

  /** The table at `root` lists tables, which list the values each handler was pushed with. */
  ghost predicate Represents(tables: map<nat, TableData>, root: nat, handlers: seq<seq<Value>>, refs: seq<nat>) {
    && root in tables && |refs| == |handlers|
    && tables[root] == ListData(Tables(refs))
    && forall i | 0 <= i < |refs| :: refs[i] in tables && refs[i] != root && tables[refs[i]] == ListData(handlers[i])
  }

  function Tables(refs: seq<nat>): (vs: seq<Value>)
    ensures |vs| == |refs| && NoNil(vs)
  {
    seq(|refs|, i requires 0 <= i < |refs| => Table(refs[i]))
  }

  /** A handler that can be called at all: what it was pushed with starts with a value. */
  predicate Callable(h: seq<Value>) {
    h != [] && h[0] != Nil
  }

  /** What calling h may amount to: function and arguments up to a nil that ends the table. */
  predicate CallOf(called: seq<Value>, h: seq<Value>) {
    called != [] && called <= h && EndsAt(h, |called|)
  }

  /** Without a value to call, unpacking may find nothing: `lua_pcall` is then given -1 arguments. */
  lemma NothingToCall(h: seq<Value>)
    ensures EndsAt(h, 0) <==> !Callable(h)
    ensures !Callable(h) <==> h == [] || h[0] == Nil
  {
  }

  /** What a handler is called with: all it was pushed with, or what comes before one of its nils. */
  lemma WhatIsCalled(called: seq<Value>, h: seq<Value>)
    ensures CallOf(called, h) <==>
              && called != [] && called <= h && called[|called| - 1] != Nil
              && (called == h || h[|called|] == Nil)
  {
    if called <= h && |called| == |h| {
      assert called == h;
    }
  }

  lemma RepresentsMore(tables: map<nat, TableData>, root: nat, handlers: seq<seq<Value>>, refs: seq<nat>,
                       r: nat, args: seq<Value>)
    requires Represents(tables, root, handlers, refs) && r !in tables
    ensures tables[r := ListData(args)][root] == ListData(Tables(refs))
    ensures Represents(tables[r := ListData(args)][root := ListData(Tables(refs) + [Table(r)])], root,
                       handlers + [args], refs + [r])
  {
    hide ListData;
    assert Tables(refs + [r]) == Tables(refs) + [Table(r)];
  }

  lemma RepresentsLess(tables: map<nat, TableData>, root: nat, handlers: seq<seq<Value>>, refs: seq<nat>)
    requires Represents(tables, root, handlers, refs)
    ensures root in tables && tables[root] == ListData(Tables(refs)) && |refs| == |handlers|
    ensures refs == [] ==> Represents(tables[root := ListData([])], root, handlers, refs)
    ensures refs != [] ==> Represents(tables[root := ListData(Tables(refs)[..|refs| - 1])], root,
                                      handlers[..|handlers| - 1], refs[..|refs| - 1])
  {
    hide ListData;
    if refs != [] {
      assert Tables(refs)[..|refs| - 1] == Tables(refs[..|refs| - 1]);
    } else {
      assert Tables(refs) == [];
    }
  }

  /** What `cleanup.pop(true)` comes to: a call, an error, or a call that Lua does not define. */
  datatype Execution = Called(values: seq<Value>) | EmptyStack | Undefined

  class CleanupHost {
    const L: LuaState
    const root: nat // the registry entry
    ghost var handlers: seq<seq<Value>>
    ghost var refs: seq<nat>

    ghost predicate Valid()
      reads this, L
    {
      L.TablesOk() && Represents(L.tables, root, handlers, refs)
    }

    /** `initcleanupstack` in a fresh state. */
    constructor (L: LuaState)
      requires L.TablesOk()
      modifies L`stack, L`tables, L`nextRef
      ensures Valid() && handlers == [] && this.L == L
      ensures L.stack == old(L.stack)
    {
      this.L := L;
      this.root := L.nextRef;
      this.handlers, this.refs := [], [];
      new;
      L.NewTable();
      L.Pop(1); // lua_rawsetp
      assert ListData(Tables([])) == map[];
    }

    method GetCleanupStack()
      modifies L`stack
      ensures L.stack == old(L.stack) + [Table(root)]
    {
      L.Push(Table(root));
    }

    /** `cleanup.push(...)`: the whole call frame becomes a handler. */
    method CleanupPush()
      requires Valid()
      modifies this`handlers, this`refs, L`stack, L`tables, L`nextRef
      ensures Valid() && handlers == old(handlers) + [old(L.stack)]
    {
      ghost var args, r, tables := L.stack, L.nextRef, L.tables;
      assert root in tables && r !in tables;
      RepresentsMore(tables, root, handlers, refs, r, args);
      hide ListData, Represents;
      TPack(L, |L.stack|);
      assert args[0..] == args;
      var idx := |L.stack|;
      GetCleanupStack();
      L.PushValue(idx);
      assert L.stack == [Table(r), Table(root), Table(r)];
      TPush(L, -2, Tables(refs));
      handlers, refs := handlers + [args], refs + [r];
    }

    /** What both kinds of pop start with: the newest handler's table, or nil, moves onto the stack. */
    method PopTop()
      requires Valid()
      modifies this`handlers, this`refs, L`stack, L`tables
      ensures Valid() && handlers == if old(handlers) == [] then [] else old(handlers)[..|old(handlers)| - 1]
      ensures |L.stack| == |old(L.stack)| + 1 && L.stack[..|old(L.stack)|] == old(L.stack)
      ensures L.At(-1).Table? <==> old(handlers) != []
      ensures old(handlers) != [] ==> L.TableAt(-1) && L.DataAt(-1) == ListData(old(handlers)[|old(handlers)| - 1])
    {
      ghost var n, vs := |handlers|, Tables(refs);
      ghost var r := if n > 0 then refs[n - 1] else root;
      assert |refs| == n && |vs| == n;
      assert n > 0 ==> r in L.tables && r != root && L.tables[r] == ListData(handlers[n - 1]) && vs[n - 1] == Table(r);
      RepresentsLess(L.tables, root, handlers, refs);
      hide ListData, Represents, Tables;
      GetCleanupStack();
      var idx := |L.stack|;
      TPop(L, idx, vs);
      L.Remove(idx);
      assert L.stack == old(L.stack) + [if n > 0 then Table(r) else Nil];
      if n > 0 {
        handlers, refs := handlers[..n - 1], refs[..n - 1];
      }
    }

    /** `cleanup.pop(false)`: drops the newest handler, if any, and returns true. */
    method CleanupPop() returns (results: nat)
      requires Valid()
      modifies this`handlers, this`refs, L`stack, L`tables
      ensures Valid() && handlers == if old(handlers) == [] then [] else old(handlers)[..|old(handlers)| - 1]
      ensures results == 1
      ensures |L.stack| == |old(L.stack)| + 2 && L.stack[..|old(L.stack)|] == old(L.stack)
      ensures L.stack[|L.stack| - 1] == Boolean(true)
    {
      var idx := |L.stack| + 1;
      PopTop();
      L.Push(Boolean(true));
      results := |L.stack| - idx;
    }

    /** `lua_pcall` with no results: consumes function and arguments; on failure a message is left. */
    method PCall(nargs: nat) returns (called: seq<Value>)
      requires nargs + 1 <= |L.stack|
      modifies L`stack
      ensures called == old(L.stack)[|old(L.stack)| - nargs - 1..]
      ensures |L.stack| >= |old(L.stack)| - nargs - 1
      ensures L.stack[..|old(L.stack)| - nargs - 1] == old(L.stack)[..|old(L.stack)| - nargs - 1]
    {
      called := L.stack[|L.stack| - nargs - 1..];
      L.Pop(nargs + 1);
      var failed: bool := *;
      if failed {
        L.Push(Str("error"));
      }
    }

    /** The top value is a handler's table: it is unpacked and called.  None is a call Lua does not define. */
    method UnpackAndCall(ghost h: seq<Value>) returns (called: Option<seq<Value>>)
      requires |L.stack| > 0 && L.TableAt(-1) && L.DataAt(-1) == ListData(h)
      modifies L`stack
      ensures called.Some? ==> CallOf(called.value, h)
      ensures called.None? ==> !Callable(h)
      ensures |L.stack| >= |old(L.stack)| - 1 && L.stack[..|old(L.stack)| - 1] == old(L.stack)[..|old(L.stack)| - 1]
    {
      ghost var below := L.stack[..|L.stack| - 1];
      hide ListData;
      var len := TUnpack(L, h);
      assert L.stack == below + h[..len];
      if len == 0 {
        NothingToCall(h);
        return None;
      }
      var vs := PCall(len - 1);
      called := Some(vs);
    }

    /** `cleanup.pop(true)`, up to the protected call. */
    method CleanupPopExecute() returns (r: Execution)
      requires Valid()
      modifies this`handlers, this`refs, L`stack, L`tables
      ensures Valid() && handlers == if old(handlers) == [] then [] else old(handlers)[..|old(handlers)| - 1]
      ensures r == EmptyStack <==> old(handlers) == []
      ensures r.Called? ==> CallOf(r.values, old(handlers)[|old(handlers)| - 1])
      ensures r == Undefined ==> !Callable(old(handlers)[|old(handlers)| - 1])
    {
      ghost var h := if handlers == [] then [] else handlers[|handlers| - 1];
      PopTop();
      if !L.At(-1).Table? {
        return EmptyStack; // luaL_len of nil
      }
      var called := UnpackAndCall(h);
      r := if called.Some? then Called(called.value) else Undefined;
    }

    /** One turn of `thread_cleanup`. */
    method RunHandler(idx: nat, i: nat) returns (called: Option<seq<Value>>)
      requires Valid() && 1 <= i <= |handlers|
      requires 1 <= idx <= |L.stack| && L.stack[idx - 1] == Table(root)
      modifies L`stack
      ensures |L.stack| >= |old(L.stack)| && L.stack[..|old(L.stack)|] == old(L.stack)
      ensures called.Some? ==> CallOf(called.value, handlers[i - 1])
      ensures called.None? ==> !Callable(handlers[i - 1])
    {
      ghost var below, h := L.stack, handlers[i - 1];
      L.RawGetI(idx, i);
      FieldAt(Tables(refs), i);
      hide ListData;
      assert L.stack == below + [Table(refs[i - 1])];
      called := UnpackAndCall(h);
    }

    /**
     `thread_cleanup`: every handler is called, oldest first, exactly once, whichever of them fail;
     unless one has nothing to call, where what happens is no longer defined.
     */
    method ThreadCleanup() returns (ran: seq<seq<Value>>, defined: bool)
      requires Valid()
      modifies L`stack
      ensures |ran| <= |handlers| && forall i | 0 <= i < |ran| :: CallOf(ran[i], handlers[i])
      ensures defined ==> |ran| == |handlers|
      ensures !defined ==> |ran| < |handlers| && !Callable(handlers[|ran|])
    {
      GetCleanupStack();
      var idx := |L.stack|;
      var n := L.Len(-1);
      OneBorder(Tables(refs), n);
      ran := [];
      for i := 1 to n + 1
        invariant idx <= |L.stack| && L.stack[idx - 1] == Table(root)
        invariant |ran| == i - 1 && forall j | 0 <= j < |ran| :: CallOf(ran[j], handlers[j])
      {
        ghost var before := L.stack;
        var called := RunHandler(idx, i);
        if called == None {
          return ran, false;
        }
        assert L.stack[..|before|][idx - 1] == before[idx - 1];
        ran := ran + [called.value];
      }
      defined := true;
    }
  }

  // --- whole histories ---

  datatype Op = Push(args: seq<Value>) | Pop(execute: bool)

  /** What the stack should hold after the operations. */
  function After(ops: seq<Op>): seq<seq<Value>> {
    if ops == [] then []
    else
      var before := After(ops[..|ops| - 1]);
      match ops[|ops| - 1]
      case Push(args) => before + [args]
      case Pop(_) => if before == [] then [] else before[..|before| - 1]
  }

  /** Whenever a handler is to be called, it has something to call. */
  predicate AllCallable(ops: seq<Op>) {
    && (forall i | 0 <= i < |ops| && ops[i] == Pop(true) :: PopsCallable(ops, i))
    && (forall h <- After(ops) :: Callable(h))
  }

  predicate PopsCallable(ops: seq<Op>, i: nat)
    requires i < |ops|
  {
    var before := After(ops[..i]);
    before != [] ==> Callable(before[|before| - 1])
  }

  /** One call from Lua, in a frame of its own. */
  method Perform(host: CleanupHost, op: Op) returns (defined: bool)
    requires host.Valid()
    modifies host, host.L
    ensures host.Valid()
    ensures !defined ==>
              op == Pop(true) && old(host.handlers) != [] && !Callable(old(host.handlers)[|old(host.handlers)| - 1])
    ensures var before := old(host.handlers);
            host.handlers == match op
                             case Push(args) => before + [args]
                             case Pop(_) => if before == [] then [] else before[..|before| - 1]
  {
    host.L.SetTop(0);
    defined := true;
    match op {
      case Push(args) =>
        host.L.PushAll(args);
        host.CleanupPush();
      case Pop(execute) =>
        host.L.Push(Boolean(execute));
        if execute {
          var r := host.CleanupPopExecute();
          defined := r != Undefined;
        } else {
          var _ := host.CleanupPop();
        }
    }
  }

  /**
   Any history of pushes and pops, then cancellation: what remains is run.  The whole of it is defined
   as long as every handler that is to be called has something to call.
   */
  method CancelAfter(host: CleanupHost, ops: seq<Op>) returns (ran: seq<seq<Value>>, defined: bool)
    requires host.Valid() && host.handlers == []
    modifies host, host.L
    ensures defined ==> |ran| == |After(ops)| && forall i | 0 <= i < |ran| :: CallOf(ran[i], After(ops)[i])
    ensures AllCallable(ops) ==> defined
  {
    ran := [];
    hide CleanupHost.Valid, Callable, CallOf;
    for i := 0 to |ops|
      invariant host.Valid() && host.handlers == After(ops[..i])
    {
      assert ops[..i + 1][..i] == ops[..i];
      defined := Perform(host, ops[i]);
      if !defined {
        assert !PopsCallable(ops, i);
        return;
      }
    }
    assert ops[..|ops|] == ops;
    ran, defined := host.ThreadCleanup();
    assert !defined ==> After(ops)[|ran|] in After(ops);
  }

  /** Every argument survives, whatever `#t` answers, exactly when none of them is nil. */
  lemma AllArgumentsSurvive(h: seq<Value>)
    requires Callable(h)
    ensures (forall v <- h :: v != Nil) <==> forall called :: CallOf(called, h) ==> called == h
  {
    if NoNil(h) {
      forall called | CallOf(called, h) ensures called == h {
        if called != h {
          CutShort(called, h);
        }
      }
    } else {
      var k := FirstNil(h, 0);
      assert CallOf(h[..k], h);
    }
  }

  lemma CutShort(called: seq<Value>, h: seq<Value>)
    requires CallOf(called, h) && called != h
    ensures !NoNil(h)
  {
    assert h[|called|] in h;
  }

  lemma FirstNil(h: seq<Value>, from: nat) returns (k: nat)
    requires !NoNil(h) && from <= |h| && forall i | 0 <= i < from :: h[i] != Nil
    ensures k < |h| && h[k] == Nil && forall i | 0 <= i < k :: h[i] != Nil
    decreases |h| - from
  {
    if from < |h| && h[from] != Nil {
      k := FirstNil(h, from + 1);
    } else {
      k := from;
    }
  }
}
