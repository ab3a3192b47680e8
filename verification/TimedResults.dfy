/** What `timedexchange` makes of the outcome of an exchange (libpthread/lua_pthread.c, its last switch). */
module TimedResults {
  import opened Wrappers
  import opened Lua

  /** The values a C function hands to Lua when it returns n. */
  function Handed(stack: seq<Value>, n: nat): (vs: seq<Value>)
    requires n <= |stack|
    ensures |vs| == n
  {
    stack[|stack| - n..]
  }

  /**
   None is `lua_error`.  After an exchange the flag `true` is inserted one place too low, so what is
   handed over is the top of the stack as it was: the value below the results, then the results.
   */
  method ShapeResults(L: LuaState, nres: int) returns (count: Option<nat>)
    requires -2 <= nres < |L.stack|
    modifies L`stack
    ensures nres == -1 <==> count == None
    ensures nres == -2 ==> count == Some(1) && L.stack == old(L.stack) + [Boolean(false)]
    ensures nres >= 0 ==>
              && count == Some(nres + 1) && nres + 1 <= |L.stack|
              && var below := |old(L.stack)| - nres - 1;
                 L.stack == old(L.stack)[..below] + [Boolean(true)] + old(L.stack)[below..]
    ensures nres >= 0 ==>
              && Handed(L.stack, nres + 1) == Handed(old(L.stack), nres + 1)
  {
    if nres == -1 {
      return None;
    }
    if nres == -2 {
      L.Push(Boolean(false));
      return Some(1);
    }
    ghost var before := L.stack;
    L.Push(Boolean(true));
    var n := nres + 1;
    L.Insert(|L.stack| - n);
    ghost var p := |before| - n; // where the flag went
    assert L.stack == before[..p] + [Boolean(true)] + before[p..];
    count := Some(n);
  }
}
