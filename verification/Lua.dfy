/**
 Lua values and the part of the Lua C API the modelled code drives.

 A `LuaState` is a stack of values addressed by absolute (1, 2, ...) or relative
 (-1, -2, ...) indices, plus the tables the state owns.  Each method below is the
 contract of one API function.  A `luaL_Buffer` occupies no stack slot.
 */
module Lua {

  /** A closure carries its upvalues by value, so upvalue graphs are acyclic. */
  datatype Value =
    | Nil
    | Boolean(b: bool)
    | LightUserdata(address: nat)
    | Integer(i: int)
    | Float(bits: nat)
    | Str(s: string)
    | Chunk(chunkProto: nat, names: seq<string>) // a string holding a precompiled function
    | Closure(proto: nat, upvalues: seq<Upvalue>)
    | CFunction(fn: nat)
    | Table(ref: nat)
    | Userdata(id: nat)
    | Coroutine(thread: nat)

  datatype Upvalue = Upvalue(name: string, value: Value)

  type TableData = map<int, Value>

  predicate IsFunction(v: Value) {
    v.Closure? || v.CFunction?
  }

  predicate ValidIndex(top: nat, idx: int) {
    1 <= idx <= top || -(top as int) <= idx <= -1
  }

  /** The position in the stack sequence that an API index denotes. */
  function Position(top: nat, idx: int): (p: nat)
    requires ValidIndex(top, idx)
    ensures p < top
  {
    if idx > 0 then idx - 1 else top + idx
  }

  function FieldOf(t: TableData, k: int): Value {
    if k in t then t[k] else Nil
  }

  /** Storing nil removes the key, as in Lua. */
  function WithField(t: TableData, k: int, v: Value): TableData {
    if v == Nil then t - {k} else t[k := v]
  }

  /** What `#t` may answer: any border of the table. */
  predicate IsBorder(t: TableData, n: nat) {
    && (n == 0 || FieldOf(t, n) != Nil)
    && FieldOf(t, n + 1) == Nil
  }

  /** The closure `lua_load` builds: its first upvalue is the globals table, the others are nil. */
  function LoadedUpvalues(names: seq<string>, globals: nat): (us: seq<Upvalue>)
    ensures |us| == |names|
  {
    seq(|names|, k requires 0 <= k < |names| =>
      Upvalue(names[k], if k == 0 then Table(globals) else Nil))
  }

  function UpvalueNames(us: seq<Upvalue>): (names: seq<string>)
    ensures |names| == |us|
  {
    seq(|us|, k requires 0 <= k < |us| => us[k].name)
  }

  class LuaState {
    var stack: seq<Value>
    var tables: map<nat, TableData>
    var nextRef: nat // above every table reference in use
    const globals: nat

    constructor (globals: nat)
      ensures stack == [] && tables == map[] && this.globals == globals && TablesOk()
    {
      this.stack := [];
      this.tables := map[];
      this.nextRef := 0;
      this.globals := globals;
    }

    function At(idx: int): Value
      requires ValidIndex(|stack|, idx)
      reads this`stack
    {
      stack[Position(|stack|, idx)]
    }

    method Push(v: Value)
      modifies this`stack
      ensures stack == old(stack) + [v]
    {
      stack := stack + [v];
    }

    method PushAll(vs: seq<Value>)
      modifies this`stack
      ensures stack == old(stack) + vs
    {
      stack := stack + vs;
    }

    method PushValue(idx: int)
      requires ValidIndex(|stack|, idx)
      modifies this`stack
      ensures stack == old(stack) + [old(At(idx))]
    {
      stack := stack + [At(idx)];
    }

    method Pop(n: nat)
      requires n <= |stack|
      modifies this`stack
      ensures stack == old(stack)[..|old(stack)| - n]
    {
      stack := stack[..|stack| - n];
    }

    method SetTop(n: nat)
      requires n <= |stack|
      modifies this`stack
      ensures stack == old(stack)[..n]
    {
      stack := stack[..n];
    }

    /** `lua_insert`: moves the top value into position `idx`, shifting the others up. */
    method Insert(idx: int)
      requires ValidIndex(|stack|, idx)
      modifies this`stack
      ensures var p, n := Position(|old(stack)|, idx), |old(stack)|;
              stack == old(stack)[..p] + [old(stack)[n - 1]] + old(stack)[p..n - 1]
    {
      var p, n := Position(|stack|, idx), |stack|;
      stack := stack[..p] + [stack[n - 1]] + stack[p..n - 1];
    }

    method Remove(idx: int)
      requires ValidIndex(|stack|, idx)
      modifies this`stack
      ensures var p := Position(|old(stack)|, idx);
              stack == old(stack)[..p] + old(stack)[p + 1..]
    {
      var p := Position(|stack|, idx);
      stack := stack[..p] + stack[p + 1..];
    }

    /** `lua_dump`: only Lua closures can be dumped; the function stays on the stack. */
    method Dump() returns (chunk: Value, ok: bool)
      requires |stack| > 0
      ensures ok == At(-1).Closure?
      ensures ok ==> chunk == Chunk(At(-1).proto, UpvalueNames(At(-1).upvalues))
    {
      var f := At(-1);
      if f.Closure? {
        return Chunk(f.proto, UpvalueNames(f.upvalues)), true;
      }
      return Nil, false;
    }

    /** `luaL_loadbuffer` of a dumped chunk. */
    method Load(chunk: Value)
      requires chunk.Chunk?
      modifies this`stack
      ensures stack == old(stack) + [Closure(chunk.chunkProto, LoadedUpvalues(chunk.names, globals))]
    {
      stack := stack + [Closure(chunk.chunkProto, LoadedUpvalues(chunk.names, globals))];
    }

    /** `lua_getupvalue`: pushes upvalue `uv` (from 1) unless there is none. */
    method GetUpvalue(idx: int, uv: nat) returns (found: bool, name: string)
      requires ValidIndex(|stack|, idx) && At(idx).Closure? && uv >= 1
      modifies this`stack
      ensures found == (uv <= |old(At(idx)).upvalues|)
      ensures found ==> name == old(At(idx)).upvalues[uv - 1].name
      ensures stack == if found then old(stack) + [old(At(idx)).upvalues[uv - 1].value] else old(stack)
    {
      var f := At(idx);
      found, name := uv <= |f.upvalues|, "";
      if found {
        name := f.upvalues[uv - 1].name;
        stack := stack + [f.upvalues[uv - 1].value];
      }
    }

    /** `lua_setupvalue`: pops the top value into upvalue `uv` of the closure at `idx`. */
    method SetUpvalue(idx: int, uv: nat)
      requires 1 <= idx < |stack| && stack[idx - 1].Closure?
      requires 1 <= uv <= |stack[idx - 1].upvalues|
      modifies this`stack
      ensures var f, n := old(stack)[idx - 1], |old(stack)|;
              var u := f.upvalues[uv - 1].(value := old(stack)[n - 1]);
              stack == old(stack)[..n - 1][idx - 1 := f.(upvalues := f.upvalues[uv - 1 := u])]
    {
      var f, n := stack[idx - 1], |stack|;
      var u := Upvalue(f.upvalues[uv - 1].name, stack[n - 1]);
      stack := stack[..n - 1][idx - 1 := f.(upvalues := f.upvalues[uv - 1 := u])];
    }

    // --- tables ---

    ghost predicate TablesOk()
      reads this`tables, this`nextRef
    {
      forall r <- tables :: r < nextRef
    }

    predicate TableAt(idx: int)
      reads this`stack, this`tables
    {
      ValidIndex(|stack|, idx) && At(idx).Table? && At(idx).ref in tables
    }

    function DataAt(idx: int): TableData
      requires TableAt(idx)
      reads this`stack, this`tables
    {
      tables[At(idx).ref]
    }

    method NewTable()
      requires TablesOk()
      modifies this`stack, this`tables, this`nextRef
      ensures TablesOk() && nextRef == old(nextRef) + 1
      ensures old(nextRef) !in old(tables)
      ensures tables == old(tables)[old(nextRef) := map[]]
      ensures stack == old(stack) + [Table(old(nextRef))]
    {
      tables := tables[nextRef := map[]];
      stack := stack + [Table(nextRef)];
      nextRef := nextRef + 1;
    }

    /** `lua_rawseti`: pops the top value into field k of the table at idx. */
    method RawSetI(idx: int, k: int)
      requires |stack| > 0 && TableAt(idx)
      modifies this`stack, this`tables
      ensures stack == old(stack)[..|old(stack)| - 1]
      ensures tables == old(tables)[old(At(idx)).ref := WithField(old(DataAt(idx)), k, old(stack)[|old(stack)| - 1])]
    {
      var r, v := At(idx).ref, stack[|stack| - 1];
      tables := tables[r := WithField(tables[r], k, v)];
      stack := stack[..|stack| - 1];
    }

    method RawGetI(idx: int, k: int)
      requires TableAt(idx)
      modifies this`stack
      ensures stack == old(stack) + [FieldOf(old(DataAt(idx)), k)]
    {
      stack := stack + [FieldOf(DataAt(idx), k)];
    }

    /** `luaL_len` without metamethods answers some border. */
    method Len(idx: int) returns (n: nat)
      requires TableAt(idx)
      ensures IsBorder(DataAt(idx), n)
    {
      var t := DataAt(idx);
      n := 0;
      while FieldOf(t, n + 1) != Nil
        invariant n == 0 || FieldOf(t, n) != Nil
        invariant Below(n) <= t.Keys
        decreases |t.Keys| - n
      {
        SubsetSize(Below(n + 1), t.Keys);
        n := n + 1;
      }
    }
  }

  /** The keys 1 .. n. */
  ghost function Below(n: nat): (s: set<int>)
    ensures |s| == n && n + 1 !in s
    ensures forall k <- s :: k <= n
  {
    if n == 0 then {} else Below(n - 1) + {n}
  }

  lemma SubsetSize(a: set<int>, b: set<int>)
    requires a <= b
    ensures |a| <= |b|
  {
    assert b == a + (b - a);
  }
}
