/** Tables used as lists, and the stack helpers over them (utils.h). */
module LuaTables {
  import opened Lua

  /** The table that results from storing vs at 1, 2, ...; nils leave holes. */
  function ListData(vs: seq<Value>): TableData {
    if vs == [] then map[] else WithField(ListData(vs[..|vs| - 1]), |vs|, vs[|vs| - 1])
  }

  predicate NoNil(vs: seq<Value>) {
    forall v <- vs :: v != Nil
  }

  lemma {:induction false} FieldAt(vs: seq<Value>, k: int)
    ensures FieldOf(ListData(vs), k) == if 1 <= k <= |vs| then vs[k - 1] else Nil
    ensures k in ListData(vs) ==> 1 <= k <= |vs|
  {
    if vs != [] {
      FieldAt(vs[..|vs| - 1], k);
    }
  }

  /** The values at their places, from 1 on, but no nils. */
  lemma ListExactly(vs: seq<Value>, k: int)
    ensures k in ListData(vs) <==> 1 <= k <= |vs| && vs[k - 1] != Nil
    ensures k in ListData(vs) ==> ListData(vs)[k] == vs[k - 1]
  {
    FieldAt(vs, k);
    NoNilStored(vs, k);
  }

  lemma {:induction false} NoNilStored(vs: seq<Value>, k: int)
    ensures k in ListData(vs) ==> ListData(vs)[k] != Nil
  {
    if vs != [] {
      NoNilStored(vs[..|vs| - 1], k);
    }
  }

  /** Without holes a list has one border, its length. */
  lemma OneBorder(vs: seq<Value>, n: nat)
    requires NoNil(vs) && IsBorder(ListData(vs), n)
    ensures n == |vs|
  {
    assert n < |vs| ==> vs[n] in vs;
    FieldAt(vs, n);
    FieldAt(vs, n + 1);
  }

  lemma StoreNext(vs: seq<Value>, v: Value)
    ensures WithField(ListData(vs), |vs| + 1, v) == ListData(vs + [v])
  {
    assert (vs + [v])[..|vs|] == vs;
  }

  lemma StoreNil(vs: seq<Value>, v: Value)
    ensures WithField(ListData(vs + [v]), |vs| + 1, Nil) == ListData(vs)
  {
    StoreNext(vs, v);
    FieldAt(vs, |vs| + 1);
    assert ListData(vs) - {|vs| + 1} == ListData(vs);
    assert ListData(vs)[|vs| + 1 := v] - {|vs| + 1} == ListData(vs);
  }

  /** Reading and clearing field `#vs`. */
  lemma DropLast(vs: seq<Value>)
    requires NoNil(vs)
    ensures FieldOf(ListData(vs), |vs|) == if vs == [] then Nil else vs[|vs| - 1]
    ensures WithField(ListData(vs), |vs|, Nil) == ListData(if vs == [] then [] else vs[..|vs| - 1])
  {
    if vs != [] {
      var n := |vs| - 1;
      assert vs == vs[..n] + [vs[n]] && vs[n] in vs;
      FieldAt(vs, |vs|);
      StoreNil(vs[..n], vs[n]);
    }
  }

  method TPush(L: LuaState, idx: int, ghost vs: seq<Value>)
    requires |L.stack| > 1 && L.TableAt(idx) && L.TablesOk()
    requires NoNil(vs) && L.DataAt(idx) == ListData(vs)
    modifies L`stack, L`tables
    ensures L.stack == old(L.stack)[..|old(L.stack)| - 1] && L.TablesOk()
    ensures L.tables == old(L.tables)[old(L.At(idx)).ref := ListData(vs + [old(L.stack)[|old(L.stack)| - 1]])]
  {
    hide ListData, WithField, IsBorder;
    var len := L.Len(idx);
    OneBorder(vs, len);
    StoreNext(vs, L.stack[|L.stack| - 1]);
    L.RawSetI(idx, len + 1);
  }

  /** On an empty list this pushes nil and changes nothing. */
  method TPop(L: LuaState, idx: nat, ghost vs: seq<Value>)
    requires 1 <= idx && L.TableAt(idx) && L.TablesOk()
    requires NoNil(vs) && L.DataAt(idx) == ListData(vs)
    modifies L`stack, L`tables
    ensures L.TablesOk()
    ensures L.stack == old(L.stack) + [if vs == [] then Nil else vs[|vs| - 1]]
    ensures L.tables == old(L.tables)[old(L.At(idx)).ref := ListData(if vs == [] then [] else vs[..|vs| - 1])]
  {
    hide ListData, WithField, FieldOf, IsBorder;
    var len := L.Len(idx);
    OneBorder(vs, len);
    DropLast(vs);
    L.RawGetI(idx, len);
    L.Push(Nil);
    L.RawSetI(idx, len);
  }

  /** The loop of `tpack`: the table at idx, with the values above it, receives them one by one. */
  method PackLoop(L: LuaState, idx: nat, ghost rest: seq<Value>, ghost r: nat, ghost vs: seq<Value>)
    requires idx == |rest| + 1 && L.stack == rest + [Table(r)] + vs && L.TablesOk()
    requires r in L.tables && L.tables[r] == ListData([])
    modifies L`stack, L`tables
    ensures L.stack == old(L.stack) && L.TablesOk()
    ensures L.tables == old(L.tables)[r := ListData(vs)]
  {
    var n := |L.stack| - idx;
    ghost var all := L.stack;
    for i := 1 to n + 1
      invariant L.stack == all && L.TablesOk()
      invariant L.tables == old(L.tables)[r := ListData(vs[..i - 1])]
    {
      assert all[idx - 1] == Table(r) && all[idx + i - 1] == vs[i - 1];
      L.PushValue(idx + i);
      assert vs[..i] == vs[..i - 1] + [vs[i - 1]];
      StoreNext(vs[..i - 1], vs[i - 1]);
      L.RawSetI(idx, i);
    }
    assert vs[..n] == vs;
  }

  /** Replaces the top n values by a table of them. */
  method TPack(L: LuaState, n: nat)
    requires n <= |L.stack| && L.TablesOk()
    modifies L`stack, L`tables, L`nextRef
    ensures L.TablesOk() && old(L.nextRef) !in old(L.tables)
    ensures L.stack == old(L.stack)[..|old(L.stack)| - n] + [Table(old(L.nextRef))]
    ensures L.tables == old(L.tables)[old(L.nextRef) := ListData(old(L.stack)[|old(L.stack)| - n..])]
  {
    ghost var r, base := L.nextRef, |L.stack| - n;
    ghost var rest, vs := L.stack[..base], L.stack[base..];
    L.NewTable();
    if n > 0 {
      var idx := |L.stack| - n;
      L.Insert(idx);
      PackLoop(L, idx, rest, r, vs);
      L.SetTop(idx);
    }
  }

  /** vs[..n] is what a list with possible holes shows when #t answers n. */
  predicate EndsAt(vs: seq<Value>, n: nat) {
    n <= |vs| && (n > 0 ==> vs[n - 1] != Nil) && (n < |vs| ==> vs[n] == Nil)
  }

  lemma BorderOfList(vs: seq<Value>, n: nat)
    ensures IsBorder(ListData(vs), n) <==> EndsAt(vs, n)
    ensures (n == 0 || n in ListData(vs)) && n + 1 !in ListData(vs) <==>
              n <= |vs| && (n > 0 ==> vs[n - 1] != Nil) && (n < |vs| ==> vs[n] == Nil)
  {
    FieldAt(vs, n);
    FieldAt(vs, n + 1);
    hide ListData;
    ListExactly(vs, n);
    ListExactly(vs, n + 1);
  }

  /** Replaces the table on top by its elements, up to the border the table answers. */
  method TUnpack(L: LuaState, ghost vs: seq<Value>) returns (len: nat)
    requires |L.stack| > 0 && L.TableAt(-1) && L.DataAt(-1) == ListData(vs)
    modifies L`stack
    ensures EndsAt(vs, len)
    ensures len <= |vs| && (len > 0 ==> vs[len - 1] != Nil) && (len < |vs| ==> vs[len] == Nil)
    ensures L.stack == old(L.stack)[..|old(L.stack)| - 1] + vs[..len]
  {
    hide ListData, IsBorder, FieldOf;
    var idx := |L.stack|;
    ghost var before := L.stack;
    len := L.Len(idx);
    BorderOfList(vs, len);
    for i := 1 to len + 1
      invariant L.stack == before + vs[..i - 1]
    {
      assert L.stack[idx - 1] == before[idx - 1];
      FieldAt(vs, i);
      L.RawGetI(idx, i);
      assert vs[..i] == vs[..i - 1] + [vs[i - 1]];
    }
    L.Remove(idx);
    assert L.stack == before[..idx - 1] + vs[..len];
  }
}
