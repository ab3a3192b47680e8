/**
 The two-sided copy at the heart of a rendezvous (`exchange` in libpthread/lua_pthread.c).
 The active thread runs it on both Lua stacks while the waiter is blocked.
 */
module Exchange {
  import opened Lua
  import opened DeepCopy

  /** A blocked waiter's stack: its arguments on top, then how many there are. */
  predicate Waiting(stack: seq<Value>) {
    && |stack| > 0
    && stack[|stack| - 1].Integer?
    && 0 <= stack[|stack| - 1].i < |stack|
  }

  function Offered(stack: seq<Value>): (vs: seq<Value>)
    requires Waiting(stack)
  {
    var n := |stack| - 1;
    stack[n - stack[n].i..n]
  }

  /** `suffix` sits on top of `stack`. */
  predicate OnTop(suffix: seq<Value>, stack: seq<Value>) {
    |suffix| <= |stack| && stack[|stack| - |suffix|..] == suffix
  }

  /**
   The effect of an exchange on the active stack `own` and the waiting stack `other`.
   Either each side gets copies of all of the other's values, in order, or both sides
   get -1 and a message.
   */
  ghost predicate Exchanged(own: seq<Value>, other: seq<Value>, idx: nat, narg: nat, g: nat, h: nat,
                            own': seq<Value>, other': seq<Value>, nres: int)
    requires Waiting(other) && 1 <= idx && idx + narg - 1 <= |own|
  {
    var theirs, mine, rest := Offered(other), own[idx - 1..idx - 1 + narg], other[..|other| - 1];
    if AllCopyable(theirs) && AllCopyable(mine) then
      && nres == |theirs|
      && own' == own + Copies(theirs, g)
      && other' == rest + Copies(mine, h) + [Integer(narg)]
    else
      && nres == -1
      && own < own' && own'[|own'| - 1].Str?
      && |other'| > |other| && rest < other'
      && other'[|other'| - 1] == Integer(-1) && other'[|other'| - 2].Str?
  }

  /** What an exchange leaves, value by value. */
  lemma ExchangedMeans(own: seq<Value>, other: seq<Value>, idx: nat, narg: nat, g: nat, h: nat,
                       own': seq<Value>, other': seq<Value>, nres: int)
    requires Waiting(other) && 1 <= idx && idx + narg - 1 <= |own|
    requires Exchanged(own, other, idx, narg, g, h, own', other', nres)
    ensures var top := |other| - 1;
            var n := other[top].i;
            var theirs, mine := other[top - n..top], own[idx - 1..idx - 1 + narg];
            if AllCopyable(theirs) && AllCopyable(mine) then
              && nres == n && own' == own + Copies(theirs, g)
              && other' == other[..top] + Copies(mine, h) + [Integer(narg)]
            else
              && nres == -1 && |own'| > |own| && own'[..|own|] == own && own'[|own'| - 1].Str?
              && |other'| > top + 1 && other'[..top] == other[..top]
              && other'[|other'| - 2].Str? && other'[|other'| - 1] == Integer(-1)
  {
    hide AllCopyable, Copies;
  }

  method Exchange(L: LuaState, l: LuaState, idx: nat, narg: nat) returns (nres: int)
    requires L != l && Waiting(l.stack)
    requires 1 <= idx && idx + narg - 1 <= |L.stack|
    modifies L`stack, l`stack
    ensures Exchanged(old(L.stack), old(l.stack), idx, narg, L.globals, l.globals, L.stack, l.stack, nres)
  {
    hide Copyable, CopyOf;
    ghost var waiting, own := l.stack[..|l.stack| - 1], L.stack;
    ghost var theirs, mine := Offered(l.stack), L.stack[idx - 1..idx - 1 + narg];
    nres := l.At(-1).i;
    l.Pop(1);
    var from := |l.stack| - nres + 1;
    assert Window(l.stack, from, nres) == theirs;
    var error := CopyN(l, L, from, nres);
    if error != 0 {
      l.Push(Str("bad argument to 'exchange' (non-serializable value)"));
      l.Push(Integer(-1));
      L.Push(Str("other thread attempted invalid 'exchange'"));
      return -1;
    }
    assert L.stack[..|own|] == own;
    assert L.stack[idx - 1..idx - 1 + narg] == mine;
    var sent := SendArguments(L, l, idx, narg);
    if !sent {
      return -1;
    }
  }

  /** The second half: the active thread's own arguments, and how many they are. */
  method SendArguments(L: LuaState, l: LuaState, idx: nat, narg: nat) returns (sent: bool)
    requires L != l && 1 <= idx && idx + narg - 1 <= |L.stack|
    modifies L`stack, l`stack
    ensures sent == AllCopyable(old(L.stack)[idx - 1..idx - 1 + narg])
    ensures sent ==>
              && L.stack == old(L.stack)
              && l.stack == old(l.stack) + Copies(old(L.stack)[idx - 1..idx - 1 + narg], l.globals) + [Integer(narg)]
    ensures !sent ==>
              && old(L.stack) < L.stack && L.stack[|L.stack| - 1].Str?
              && old(l.stack) < l.stack && |l.stack| > |old(l.stack)| + 1
              && l.stack[|l.stack| - 2].Str? && l.stack[|l.stack| - 1] == Integer(-1)
  {
    hide Copyable, CopyOf;
    assert Window(L.stack, idx, narg) == L.stack[idx - 1..idx - 1 + narg];
    var error := CopyN(L, l, idx, narg);
    if error != 0 {
      l.Push(Str("other thread attempted invalid 'exchange'"));
      l.Push(Integer(-1));
      L.Push(Str("bad argument to 'exchange' (non-serializable value)"));
      return false;
    }
    l.Push(Integer(narg));
    sent := true;
  }
}
