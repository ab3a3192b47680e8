/**
 Copying values between Lua states (`copyn` in libpthread/lua_pthread.c).
 */
module DeepCopy {
  import opened Lua

  /** What `copyn` accepts: everything but C functions and references to objects of the source state. */
  predicate Copyable(v: Value) {
    match v
    case Nil | Boolean(_) | LightUserdata(_) | Integer(_) | Float(_) | Str(_) | Chunk(_, _) => true
    case Closure(_, us) => forall u <- us :: u.name == "_ENV" || Copyable(u.value)
    case _ => false
  }

  predicate UpvalueCopyable(u: Upvalue) {
    u.name == "_ENV" || Copyable(u.value)
  }

  predicate AllCopyable(vs: seq<Value>) {
    forall v <- vs :: Copyable(v)
  }

  /** The value `copyn` builds in a state whose globals table is `g`. */
  function CopyOf(v: Value, g: nat): Value {
    match v
    case Closure(p, us) =>
      Closure(p, seq(|us|, k requires 0 <= k < |us| =>
        if us[k].name == "_ENV" then
          Upvalue("_ENV", if k == 0 then Table(g) else Nil)
        else
          Upvalue(us[k].name, CopyOf(us[k].value, g))))
    case _ => v
  }

  function Copies(vs: seq<Value>, g: nat): (r: seq<Value>)
    ensures |r| == |vs|
    ensures forall k | 0 <= k < |vs| :: r[k] == CopyOf(vs[k], g)
  {
    seq(|vs|, k requires 0 <= k < |vs| => CopyOf(vs[k], g))
  }

  // --- size of a value, for termination ---

  function Weight(v: Value): nat {
    match v
    case Closure(_, us) => 1 + UpvaluesWeight(us)
    case _ => 1
  }

  function UpvaluesWeight(us: seq<Upvalue>): nat {
    if us == [] then 0 else Weight(us[0].value) + UpvaluesWeight(us[1..])
  }

  function TotalWeight(vs: seq<Value>): nat {
    if vs == [] then 0 else Weight(vs[0]) + TotalWeight(vs[1..])
  }

  lemma {:induction false} UpvalueLighter(us: seq<Upvalue>, k: nat)
    requires k < |us|
    ensures Weight(us[k].value) <= UpvaluesWeight(us)
  {
    if k > 0 {
      UpvalueLighter(us[1..], k - 1);
    }
  }

  lemma {:induction false} ElementLighter(vs: seq<Value>, k: nat)
    requires k < |vs|
    ensures Weight(vs[k]) <= TotalWeight(vs)
  {
    if k > 0 {
      ElementLighter(vs[1..], k - 1);
    }
  }

  lemma SingletonWeight(v: Value)
    ensures TotalWeight([v]) == Weight(v)
  {
    assert [v][1..] == [];
  }

  // --- the copy loop ---

  /** The index range idx .. idx + n - 1 names n slots of a stack of height `top`. */
  predicate ValidWindow(top: nat, idx: int, n: nat) {
    || (1 <= idx && idx + n - 1 <= top)
    || (-(top as int) <= idx < 0 && idx + n <= 0)
  }

  function Window(s: seq<Value>, idx: int, n: nat): (w: seq<Value>)
    requires ValidWindow(|s|, idx, n)
    ensures |w| == n
  {
    var p := if idx > 0 then idx - 1 else |s| + idx;
    s[p..p + n]
  }

  lemma WindowAt(s: seq<Value>, idx: int, n: nat, i: int)
    requires ValidWindow(|s|, idx, n) && idx <= i < idx + n
    ensures ValidIndex(|s|, i) && s[Position(|s|, i)] == Window(s, idx, n)[i - idx]
  {
  }

  /** Everything a caller may rely on after `copyn(L, l, idx, n)` returned r. */
  ghost predicate CopyOutcome(src: seq<Value>, dst: seq<Value>, idx: int, n: nat, g: nat,
                              src': seq<Value>, dst': seq<Value>, r: int)
    requires ValidWindow(|src|, idx, n)
  {
    var w := Window(src, idx, n);
    && (r == 0 <==> AllCopyable(w))
    && (r == 0 ==> src' == src && dst' == dst + Copies(w, g))
    && (r != 0 ==>
          && idx <= r < idx + n
          && !Copyable(w[r - idx])
          && AllCopyable(w[..r - idx])
          && src <= src'
          && dst + Copies(w[..r - idx], g) <= dst')
  }

  /** The upvalues of the half-built copy after the first `done` of them were transferred. */
  function PartialUpvalues(us: seq<Upvalue>, done: nat, g: nat): (r: seq<Upvalue>)
    requires done <= |us|
    ensures |r| == |us|
  {
    var loaded := LoadedUpvalues(UpvalueNames(us), g);
    seq(|us|, k requires 0 <= k < |us| =>
      if k < done && us[k].name != "_ENV" then Upvalue(us[k].name, CopyOf(us[k].value, g)) else loaded[k])
  }

  lemma StopsAt(src: seq<Value>, dst: seq<Value>, idx: int, n: nat, g: nat,
                src': seq<Value>, dst': seq<Value>, i: int)
    requires ValidWindow(|src|, idx, n) && idx <= i < idx + n && i != 0
    requires var w := Window(src, idx, n);
             !Copyable(w[i - idx]) && AllCopyable(w[..i - idx]) && dst + Copies(w[..i - idx], g) <= dst'
    requires src <= src'
    ensures CopyOutcome(src, dst, idx, n, g, src', dst', i)
  {
    hide Copyable, CopyOf, Copies;
    var w := Window(src, idx, n);
    assert w[i - idx] in w;
  }

  lemma CopiedAll(src: seq<Value>, dst: seq<Value>, idx: int, n: nat, g: nat)
    requires ValidWindow(|src|, idx, n) && AllCopyable(Window(src, idx, n))
    ensures CopyOutcome(src, dst, idx, n, g, src, dst + Copies(Window(src, idx, n), g), 0)
  {
  }

  lemma NothingToRefuse()
    ensures AllCopyable([])
  {
  }

  lemma OneMore(w: seq<Value>, k: nat, g: nat)
    requires k < |w|
    ensures AllCopyable(w[..k + 1]) <==> AllCopyable(w[..k]) && Copyable(w[k])
    ensures Copies(w[..k + 1], g) == Copies(w[..k], g) + [CopyOf(w[k], g)]
  {
    hide Copyable, CopyOf;
    assert w[..k + 1] == w[..k] + [w[k]];
  }

  /** What an outcome says of the values in the window, in plain terms. */
  lemma OutcomeMeans(src: seq<Value>, dst: seq<Value>, idx: int, n: nat, g: nat,
                     src': seq<Value>, dst': seq<Value>, r: int)
    requires ValidWindow(|src|, idx, n) && CopyOutcome(src, dst, idx, n, g, src', dst', r)
    ensures var p := if idx > 0 then idx - 1 else |src| + idx;
            var w := src[p..p + n];
            && (r == 0 <==> forall k, x | 0 <= k < n && Inside(x, w[k]) ::
                              !x.Table? && !x.Userdata? && !x.Coroutine? && !x.CFunction?)
            && (forall proto, x :: w == [Closure(proto, [Upvalue("_ENV", x)])] ==>
                  r == 0 && dst' == dst + [Closure(proto, [Upvalue("_ENV", Table(g))])])
            && (forall k, j | 0 <= k < n && w[k].Closure? && 0 <= j < |w[k].upvalues| ::
                  w[k].upvalues[j].name != "_ENV" && w[k].upvalues[j].value.Table? ==> r != 0)
  {
    var w := Window(src, idx, n);
    hide Copyable, CopyOf, Inside;
    AllCopyableExactly(w);
    forall proto, x | w == [Closure(proto, [Upvalue("_ENV", x)])]
      ensures r == 0 && dst' == dst + [Closure(proto, [Upvalue("_ENV", Table(g))])]
    {
      JustEnvironment(proto, x, g);
      SingletonCopy(w[0], g);
      assert Copies(w, g) == [CopyOf(w[0], g)];
    }
    if r == 0 {
      TablesRefused(w);
    }
  }

  /** A window is copied exactly when nothing inside its values belongs to the state, environments aside. */
  lemma AllCopyableExactly(w: seq<Value>)
    ensures AllCopyable(w) <==> forall k, x | 0 <= k < |w| && Inside(x, w[k]) ::
                                  !x.Table? && !x.Userdata? && !x.Coroutine? && !x.CFunction?
  {
    hide Copyable, Inside;
    forall k | 0 <= k < |w|
      ensures Copyable(w[k]) <==> forall x :: Inside(x, w[k]) ==>
                                    !x.Table? && !x.Userdata? && !x.Coroutine? && !x.CFunction?
    {
      CopyableExactly(w[k]);
    }
    if AllCopyable(w) {
      assert forall k | 0 <= k < |w| :: w[k] in w;
    }
  }

  /** A function whose only upvalue is its environment can be copied, and gets the target's globals. */
  lemma JustEnvironment(proto: nat, x: Value, g: nat)
    ensures var f := Closure(proto, [Upvalue("_ENV", x)]);
            Copyable(f) && CopyOf(f, g) == Closure(proto, [Upvalue("_ENV", Table(g))])
  {
    var f := Closure(proto, [Upvalue("_ENV", x)]);
    assert CopyOf(f, g).upvalues == [Upvalue("_ENV", Table(g))];
  }

  lemma TablesRefused(w: seq<Value>)
    requires AllCopyable(w)
    ensures forall k, j | 0 <= k < |w| && w[k].Closure? && 0 <= j < |w[k].upvalues| ::
              !(w[k].upvalues[j].name != "_ENV" && w[k].upvalues[j].value.Table?)
  {
    forall k, j | 0 <= k < |w| && w[k].Closure? && 0 <= j < |w[k].upvalues|
      ensures !(w[k].upvalues[j].name != "_ENV" && w[k].upvalues[j].value.Table?)
    {
      var f, u := w[k], w[k].upvalues[j];
      assert f in w && Copyable(f) && u in f.upvalues;
    }
  }

  /** A copied function: the same code, every environment the target's or nil, the rest copied in turn. */
  lemma FunctionCopy(f: Value, g: nat)
    requires f.Closure?
    ensures var c := CopyOf(f, g);
            && c.Closure? && c.proto == f.proto && |c.upvalues| == |f.upvalues|
            && forall k | 0 <= k < |f.upvalues| ::
                 && c.upvalues[k].name == f.upvalues[k].name
                 && c.upvalues[k].value == if f.upvalues[k].name != "_ENV" then CopyOf(f.upvalues[k].value, g)
                                           else if k == 0 then Table(g) else Nil
  {
  }

  method CopyN(L: LuaState, l: LuaState, idx: int, n: nat) returns (r: int)
    requires L != l && ValidWindow(|L.stack|, idx, n)
    modifies L`stack, l`stack
    ensures CopyOutcome(old(L.stack), old(l.stack), idx, n, l.globals, L.stack, l.stack, r)
    decreases TotalWeight(Window(L.stack, idx, n)), 2
  {
    ghost var w := Window(L.stack, idx, n);
    hide Copyable, CopyOf, Copies, Weight, TotalWeight, CopyOutcome, AllCopyable, Window, Position;
    assert w[..0] == [] && Copies([], l.globals) == [];
    NothingToRefuse();
    var i, end := idx, idx + n;
    while i < end
      invariant idx <= i <= end
      invariant L.stack == old(L.stack)
      invariant AllCopyable(w[..i - idx])
      invariant l.stack == old(l.stack) + Copies(w[..i - idx], l.globals)
    {
      ghost var k := i - idx;
      WindowAt(L.stack, idx, n, i);
      ElementLighter(w, k);
      OneMore(w, k, l.globals);
      var copied := CopyOne(L, l, i);
      if !copied {
        StopsAt(old(L.stack), old(l.stack), idx, n, l.globals, L.stack, l.stack, i);
        return i;
      }
      i := i + 1;
    }
    assert w[..n] == w;
    CopiedAll(old(L.stack), old(l.stack), idx, n, l.globals);
    r := 0;
  }

  /** The switch on the type of one value. */
  method CopyOne(L: LuaState, l: LuaState, i: int) returns (copied: bool)
    requires L != l && ValidIndex(|L.stack|, i)
    modifies L`stack, l`stack
    ensures copied == Copyable(old(L.At(i)))
    ensures copied ==> L.stack == old(L.stack) && l.stack == old(l.stack) + [CopyOf(old(L.At(i)), l.globals)]
    ensures !copied ==> old(L.stack) <= L.stack && old(l.stack) <= l.stack
    decreases Weight(L.At(i)), 1
  {
    var v := L.At(i);
    LeafCopy(v, l.globals);
    hide Copyable, CopyOf, Weight;
    match v {
      case Closure(_, _) =>
        copied := CopyClosure(L, l, i);
      case CFunction(_) =>
        L.PushValue(i); // lua_dump refuses it and the copy stays on the stack
        copied := false;
      case Table(_) =>
        copied := false;
      case Userdata(_) =>
        copied := false;
      case Coroutine(_) =>
        copied := false;
      case _ =>
        l.Push(v);
        copied := true;
    }
  }

  /** Dumps the function and loads it in the target state, without its upvalues. */
  method LoadBlank(L: LuaState, l: LuaState, i: int)
    requires L != l && ValidIndex(|L.stack|, i) && L.At(i).Closure?
    modifies L`stack, l`stack
    ensures L.stack == old(L.stack)
    ensures var f := old(L.At(i));
            l.stack == old(l.stack) + [Closure(f.proto, PartialUpvalues(f.upvalues, 0, l.globals))]
  {
    PartialStart(L.At(i).upvalues, l.globals);
    hide PartialUpvalues, LoadedUpvalues, UpvalueNames;
    L.PushValue(i);
    var chunk, dumped := L.Dump();
    L.Push(chunk);
    l.Load(chunk);
    L.Pop(2);
  }

  /** The LUA_TFUNCTION case. */
  method CopyClosure(L: LuaState, l: LuaState, i: int) returns (ok: bool)
    requires L != l && ValidIndex(|L.stack|, i) && L.At(i).Closure?
    modifies L`stack, l`stack
    ensures ok == Copyable(old(L.At(i)))
    ensures ok ==> L.stack == old(L.stack) && l.stack == old(l.stack) + [CopyOf(old(L.At(i)), l.globals)]
    ensures !ok ==> old(L.stack) <= L.stack && old(l.stack) <= l.stack
    decreases Weight(L.At(i)), 0
  {
    ghost var f, below, base := L.At(i), L.stack, l.stack;
    ghost var us := f.upvalues;
    LoadBlank(L, l, i);
    hide Copyable, CopyOf, PartialUpvalues, LoadedUpvalues, UpvalueNames, UpvalueCopyable;
    var lidx := |l.stack|;
    var uv := 1;
    var found, name := L.GetUpvalue(i, uv);
    while found
      invariant 1 <= uv <= |us| + 1
      invariant found == (uv <= |us|)
      invariant found ==> name == us[uv - 1].name
      invariant L.stack == if found then below + [us[uv - 1].value] else below
      invariant l.stack == base + [Closure(f.proto, PartialUpvalues(us, uv - 1, l.globals))]
      invariant forall k | 0 <= k < uv - 1 :: UpvalueCopyable(us[k])
      decreases |us| + 1 - uv
    {
      var copied := CopyUpvalue(L, l, name, lidx, uv, f, base);
      if !copied {
        CopyableUpvalues(f);
        return false;
      }
      uv := uv + 1;
      found, name := L.GetUpvalue(i, uv);
    }
    FinishedClosure(f, l.globals);
    CopyableUpvalues(f);
    ok := true;
  }

  /** One upvalue: it is on top of L, and the copy under construction is on top of l. */
  method CopyUpvalue(L: LuaState, l: LuaState, name: string, lidx: nat, uv: nat,
                     ghost f: Value, ghost base: seq<Value>)
    returns (ok: bool)
    requires L != l && f.Closure? && 1 <= uv <= |f.upvalues| && name == f.upvalues[uv - 1].name
    requires |L.stack| > 0 && L.stack[|L.stack| - 1] == f.upvalues[uv - 1].value
    requires lidx == |base| + 1
    requires l.stack == base + [Closure(f.proto, PartialUpvalues(f.upvalues, uv - 1, l.globals))]
    modifies L`stack, l`stack
    ensures ok == UpvalueCopyable(f.upvalues[uv - 1])
    ensures ok ==> L.stack == old(L.stack)[..|old(L.stack)| - 1]
    ensures f.upvalues[uv - 1].name == "_ENV" ==> ok && l.stack == old(l.stack)
    ensures ok ==> l.stack == base + [Closure(f.proto, PartialUpvalues(f.upvalues, uv, l.globals))]
    ensures !ok ==> old(L.stack) <= L.stack && base <= l.stack
    decreases UpvaluesWeight(f.upvalues), 3
  {
    ghost var v := f.upvalues[uv - 1].value;
    PartialStep(f.upvalues, uv - 1, l.globals);
    if name == "_ENV" {
      L.Pop(1); // the state's own environment stays in place
      return true;
    }
    assert Window(L.stack, -1, 1) == [v];
    UpvalueLighter(f.upvalues, uv - 1);
    SingletonWeight(v);
    var r := CopyN(L, l, -1, 1);
    SingletonCopy(v, l.globals);
    if r != 0 {
      return false;
    }
    L.Pop(1);
    l.SetUpvalue(lidx, uv);
    ok := true;
  }

  lemma LeafCopy(v: Value, g: nat)
    ensures !v.Closure? ==> CopyOf(v, g) == v
    ensures Copyable(v) ==> !v.CFunction? && !v.Table? && !v.Userdata? && !v.Coroutine?
    ensures !v.Closure? && !v.CFunction? && !v.Table? && !v.Userdata? && !v.Coroutine? ==> Copyable(v)
  {
  }

  lemma SingletonCopy(v: Value, g: nat)
    ensures AllCopyable([v]) == Copyable(v)
    ensures Copies([v], g) == [CopyOf(v, g)]
  {
    assert [v][0] == v;
  }

  lemma CopyableUpvalues(f: Value)
    requires f.Closure?
    ensures Copyable(f) <==> forall k | 0 <= k < |f.upvalues| :: UpvalueCopyable(f.upvalues[k])
  {
    var us := f.upvalues;
    assert forall k | 0 <= k < |us| :: us[k] in us;
  }

  lemma PartialStart(us: seq<Upvalue>, g: nat)
    ensures PartialUpvalues(us, 0, g) == LoadedUpvalues(UpvalueNames(us), g)
  {
  }

  lemma PartialStep(us: seq<Upvalue>, k: nat, g: nat)
    requires k < |us|
    ensures PartialUpvalues(us, k + 1, g)
         == if us[k].name == "_ENV" then PartialUpvalues(us, k, g)
            else PartialUpvalues(us, k, g)[k := Upvalue(us[k].name, CopyOf(us[k].value, g))]
    ensures PartialUpvalues(us, k, g)[k].name == us[k].name
  {
  }

  lemma FinishedClosure(f: Value, g: nat)
    requires f.Closure?
    ensures Closure(f.proto, PartialUpvalues(f.upvalues, |f.upvalues|, g)) == CopyOf(f, g)
  {
    assert PartialUpvalues(f.upvalues, |f.upvalues|, g) == CopyOf(f, g).upvalues;
  }

  // --- what a copy means ---

  /** x is v, or found in it by way of upvalues other than environments. */
  predicate Inside(x: Value, v: Value) {
    x == v || (v.Closure? && exists u <- v.upvalues :: u.name != "_ENV" && Inside(x, u.value))
  }

  /** The same by way of any upvalues. */
  predicate Reachable(x: Value, v: Value) {
    x == v || (v.Closure? && exists u <- v.upvalues :: Reachable(x, u.value))
  }

  /** What belongs to the Lua state it is in. */
  predicate Bound(v: Value) {
    v.Table? || v.Userdata? || v.Coroutine? || v.CFunction?
  }

  /** A value is accepted exactly when nothing inside it belongs to its state, environments aside. */
  lemma {:induction false} CopyableExactly(v: Value)
    ensures Copyable(v) <==> forall x :: Inside(x, v) ==> !x.Table? && !x.Userdata? && !x.Coroutine? && !x.CFunction?
  {
    if v.Closure? {
      forall u | u in v.upvalues && u.name != "_ENV"
        ensures Copyable(u.value) <==> forall x :: Inside(x, u.value) ==> !Bound(x)
      {
        CopyableExactly(u.value);
      }
      if Copyable(v) {
        forall x | Inside(x, v) ensures !Bound(x) {
          if x != v {
            var u :| u in v.upvalues && u.name != "_ENV" && Inside(x, u.value);
            assert Copyable(u.value);
          }
        }
      } else {
        var u :| u in v.upvalues && u.name != "_ENV" && !Copyable(u.value);
        var x :| Inside(x, u.value) && Bound(x);
        assert Inside(x, v);
      }
    } else {
      assert Inside(v, v);
    }
  }

  /** The value with every `_ENV` upvalue blanked: what a copy must agree on with its source. */
  function Shape(v: Value): Value {
    match v
    case Closure(p, us) =>
      Closure(p, seq(|us|, k requires 0 <= k < |us| =>
        Upvalue(us[k].name, if us[k].name == "_ENV" then Nil else Shape(us[k].value))))
    case _ => v
  }

  /** A copy is structurally equal to its source. */
  lemma {:induction false} CopyKeepsShape(v: Value, g: nat)
    ensures Shape(CopyOf(v, g)) == Shape(v)
  {
    match v
    case Closure(p, us) =>
      forall k | 0 <= k < |us| && us[k].name != "_ENV"
        ensures Shape(CopyOf(us[k].value, g)) == Shape(us[k].value)
      {
        CopyKeepsShape(us[k].value, g);
      }
      assert Shape(CopyOf(v, g)).upvalues == Shape(v).upvalues;
    case _ =>
  }

  /** Copying a copy onward gives what copying the original directly would have given. */
  lemma {:induction false} CopyOfCopy(v: Value, h: nat, g: nat)
    ensures CopyOf(CopyOf(v, h), g) == CopyOf(v, g)
    ensures Copyable(v) ==> Copyable(CopyOf(v, h))
  {
    match v
    case Closure(p, us) =>
      forall k | 0 <= k < |us| && us[k].name != "_ENV"
        ensures CopyOf(CopyOf(us[k].value, h), g) == CopyOf(us[k].value, g)
        ensures Copyable(us[k].value) ==> Copyable(CopyOf(us[k].value, h))
      {
        CopyOfCopy(us[k].value, h, g);
      }
      assert CopyOf(CopyOf(v, h), g).upvalues == CopyOf(v, g).upvalues;
      var cs := CopyOf(v, h).upvalues;
      if Copyable(v) {
        forall k | 0 <= k < |cs| ensures UpvalueCopyable(cs[k]) {
          assert us[k] in us;
        }
      }
    case _ =>
  }

  /** No object of the source state becomes reachable from the target state, only the target's globals do. */
  lemma {:induction false} CopyIsolated(v: Value, g: nat, x: Value)
    requires Copyable(v) && Reachable(x, CopyOf(v, g))
    ensures !x.Userdata? && !x.Coroutine? && !x.CFunction? && (x.Table? ==> x == Table(g))
  {
    if v.Closure? && x != CopyOf(v, g) {
      var us, cs := v.upvalues, CopyOf(v, g).upvalues;
      var u :| u in cs && Reachable(x, u.value);
      var k :| 0 <= k < |cs| && cs[k] == u;
      assert us[k] in us;
      if us[k].name != "_ENV" {
        CopyIsolated(us[k].value, g, x);
      }
    }
  }

  /** Every function in v has the table g for its environment. */
  ghost predicate EnvironmentIs(v: Value, g: nat) {
    forall f, k | Inside(f, v) && f.Closure? && 0 <= k < |f.upvalues| ::
      f.upvalues[k].name == "_ENV" ==> f.upvalues[k].value == Table(g)
  }

  /** Every function in v that uses `_ENV` has it as its first upvalue. */
  ghost predicate EnvironmentFirst(v: Value) {
    forall f, k | Inside(f, v) && f.Closure? && 0 < k < |f.upvalues| :: f.upvalues[k].name != "_ENV"
  }

  /** What is inside a copy is the copy of what is inside the original. */
  lemma {:induction false} CopyInside(v: Value, g: nat, y: Value)
    requires Inside(y, v)
    ensures Inside(CopyOf(y, g), CopyOf(v, g))
  {
    if y != v {
      var us, cs := v.upvalues, CopyOf(v, g).upvalues;
      var u :| u in us && u.name != "_ENV" && Inside(y, u.value);
      var k :| 0 <= k < |us| && us[k] == u;
      CopyInside(u.value, g, y);
      assert cs[k] in cs && cs[k].name != "_ENV";
    }
  }

  lemma {:induction false} InsideCopy(v: Value, g: nat, x: Value) returns (y: Value)
    requires Inside(x, CopyOf(v, g))
    ensures Inside(y, v) && x == CopyOf(y, g)
  {
    y := v;
    if x != CopyOf(v, g) {
      var us, cs := v.upvalues, CopyOf(v, g).upvalues;
      var u :| u in cs && u.name != "_ENV" && Inside(x, u.value);
      var k :| 0 <= k < |cs| && cs[k] == u;
      y := InsideCopy(us[k].value, g, x);
      assert us[k] in us;
    }
  }

  /** A copied function sees the target's globals exactly when `_ENV` was its first upvalue throughout. */
  lemma CopyEnvironment(v: Value, g: nat)
    ensures EnvironmentIs(CopyOf(v, g), g) <==> EnvironmentFirst(v)
  {
    if EnvironmentIs(CopyOf(v, g), g) {
      forall f, k | Inside(f, v) && f.Closure? && 0 < k < |f.upvalues| ensures f.upvalues[k].name != "_ENV" {
        CopyInside(v, g, f);
        assert CopyOf(f, g).upvalues[k].name == f.upvalues[k].name;
      }
    }
    if EnvironmentFirst(v) {
      forall x, k | Inside(x, CopyOf(v, g)) && x.Closure? && 0 <= k < |x.upvalues|
        ensures x.upvalues[k].name == "_ENV" ==> x.upvalues[k].value == Table(g)
      {
        var f := InsideCopy(v, g, x);
        assert f.upvalues[k].name == x.upvalues[k].name;
      }
    }
  }

  /**
   A function that names a local of its creator before its first global keeps `_ENV` second,
   and the copy's environment is nil.
   */
  lemma LateEnvironmentIsLost(g: nat)
    ensures var f := Closure(7, [Upvalue("x", Integer(1)), Upvalue("_ENV", Table(0))]);
            Copyable(f) && !EnvironmentIs(CopyOf(f, g), g) && CopyOf(f, g).upvalues[1].value == Nil
  {
    var f := Closure(7, [Upvalue("x", Integer(1)), Upvalue("_ENV", Table(0))]);
    assert Inside(f, f) && f.upvalues[1].name == "_ENV";
    CopyEnvironment(f, g);
  }
}
