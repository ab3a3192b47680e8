/** Reading the kernel's list of attribute names: `pushlist` of sys/extattr/lua_extattr.c. */
module ExtattrList {
  import opened Wrappers
  import opened CTypes
  import opened Lua
  import opened LuaTables

  type Name = seq<byte>

  /** A byte read through a plain `char`, where that is signed. */
  function SignedChar(b: byte): int {
    if b as int <= 127 then b as int else b as int - 0x100
  }

  /** The kernel's format: each name after its length in one byte. */
  function Encode(names: seq<Name>): seq<byte>
    requires forall n <- names :: |n| <= 255
  {
    if names == [] then [] else [|names[0]| as byte] + names[0] + Encode(names[1..])
  }

  /** The names from here to the end; None if a length is negative or reaches past the end. */
  function Walk(buf: seq<byte>): Option<seq<Name>> {
    if buf == [] then Some([])
    else
      var len := SignedChar(buf[0]);
      if len < 0 || 1 + len > |buf| then None
      else Prepend([buf[1..1 + len]], Walk(buf[1 + len..]))
  }

  /** A Lua string holds the bytes as they are. */
  function Text(n: Name): Value {
    Str(seq(|n|, i requires 0 <= i < |n| => n[i] as char))
  }

  function Texts(names: seq<Name>): (vs: seq<Value>)
    ensures |vs| == |names| && NoNil(vs)
  {
    seq(|names|, i requires 0 <= i < |names| => Text(names[i]))
  }

  lemma WalkStep(buf: seq<byte>, p: nat)
    requires p < |buf|
    ensures var len := SignedChar(buf[p]);
            Walk(buf[p..]) == if len < 0 || p + 1 + len > |buf| then None
                              else Prepend([buf[p + 1..p + 1 + len]], Walk(buf[p + 1 + len..]))
  {
    var here, len := buf[p..], SignedChar(buf[p]);
    assert here[0] == buf[p];
    if len >= 0 && p + 1 + len <= |buf| {
      assert here[1..1 + len] == buf[p + 1..p + 1 + len] && here[1 + len..] == buf[p + 1 + len..];
    }
  }

  /** `lua_pushlstring`, then storing it one past the end of the table below. */
  method AppendName(L: LuaState, name: Name, ghost r: nat, ghost names: seq<Name>)
    requires |L.stack| > 0 && L.stack[|L.stack| - 1] == Table(r) && L.TablesOk()
    requires r in L.tables && L.tables[r] == ListData(Texts(names))
    modifies L`stack, L`tables
    ensures L.stack == old(L.stack) && L.TablesOk()
    ensures L.tables == old(L.tables)[r := ListData(Texts(names + [name]))]
  {
    hide ListData;
    L.Push(Text(name));
    TPush(L, -2, Texts(names));
    assert Texts(names + [name]) == Texts(names) + [Text(name)];
  }

  /** One turn of the loop, at offset p; None is a read outside the list. */
  method PushOne(L: LuaState, data: seq<byte>, p: nat, ghost r: nat, ghost names: seq<Name>)
    returns (next: Option<nat>)
    requires p < |data| && L.TablesOk()
    requires |L.stack| > 0 && L.stack[|L.stack| - 1] == Table(r)
    requires r in L.tables && L.tables[r] == ListData(Texts(names))
    modifies L`stack, L`tables
    ensures L.stack == old(L.stack) && L.TablesOk()
    ensures next == None ==> Walk(data[p..]).None?
    ensures next.Some? ==>
              && p < next.value <= |data|
              && Walk(data[p..]) == Prepend([data[p + 1..next.value]], Walk(data[next.value..]))
              && L.tables == old(L.tables)[r := ListData(Texts(names + [data[p + 1..next.value]]))]
  {
    WalkStep(data, p);
    hide Walk, ListData, SignedChar, Texts, Prepend;
    var len, at := SignedChar(data[p]), p + 1;
    if len < 0 || at + len > |data| {
      return None;
    }
    AppendName(L, data[at..at + len], r, names);
    next := Some(at + len);
  }

  /** The loop of `pushlist`, filling the empty table on top; false is a read outside the list. */
  method PushNames(L: LuaState, data: seq<byte>, ghost r: nat) returns (inside: bool)
    requires L.TablesOk()
    requires |L.stack| > 0 && L.stack[|L.stack| - 1] == Table(r) && r in L.tables && L.tables[r] == map[]
    modifies L`stack, L`tables
    ensures L.stack == old(L.stack) && L.TablesOk()
    ensures inside == Walk(data).Some?
    ensures inside ==> L.tables == old(L.tables)[r := ListData(Texts(Walk(data).value))]
  {
    ghost var names: seq<Name> := [];
    var p, end := 0, |data|;
    assert data[p..] == data && ListData(Texts(names)) == map[];
    PrependNothing(Walk(data));
    assert Walk([]) == Some([]);
    hide Walk, ListData, SignedChar, Texts, Prepend;
    while p < end
      invariant p <= end && L.stack == old(L.stack) && L.TablesOk()
      invariant L.tables == old(L.tables)[r := ListData(Texts(names))]
      invariant Walk(data) == Prepend(names, Walk(data[p..]))
      decreases end - p
    {
      var next := PushOne(L, data, p, r, names);
      if next.None? {
        PrependEnds(names);
        return false;
      }
      ghost var name := data[p + 1..next.value];
      PrependTwice(names, [name], Walk(data[next.value..]));
      names, p := names + [name], next.value;
    }
    assert data[p..] == [];
    PrependEnds(names);
    inside := true;
  }

  /** `pushlist` over the bytes from p to end. */
  method PushList(L: LuaState, data: seq<byte>) returns (inside: bool)
    requires L.TablesOk()
    modifies L`stack, L`tables, L`nextRef
    ensures inside == Walk(data).Some?
    ensures inside ==>
              var r, names := old(L.nextRef), Walk(data).value;
              && L.stack == old(L.stack) + [Table(r)] && L.TablesOk() && r in L.tables
              && L.tables == old(L.tables)[r := L.tables[r]]
              && (forall k :: k in L.tables[r] <==> 1 <= k <= |names|)
              && forall k | 1 <= k <= |names| ::
                   && L.tables[r][k].Str? && |L.tables[r][k].s| == |names[k - 1]|
                   && forall j | 0 <= j < |names[k - 1]| :: L.tables[r][k].s[j] as int == names[k - 1][j] as int
  {
    hide Walk, ListData, Texts;
    ghost var r := L.nextRef;
    L.NewTable();
    inside := PushNames(L, data, r);
    if inside {
      TextsListed(Walk(data).value);
    }
  }

  /** The table lists each name, character by character, and nothing else. */
  lemma TextsListed(names: seq<Name>)
    ensures var t := ListData(Texts(names));
            && (forall k :: k in t <==> 1 <= k <= |names|)
            && forall k | 1 <= k <= |names| ::
                 && t[k].Str? && |t[k].s| == |names[k - 1]|
                 && forall j | 0 <= j < |names[k - 1]| :: t[k].s[j] as int == names[k - 1][j] as int
  {
    var t := ListData(Texts(names));
    forall k: int ensures k in t <==> 1 <= k <= |names| ensures k in t ==> t[k] == Text(names[k - 1]) {
      FieldAt(Texts(names), k);
    }
  }

  predicate AllShort(names: seq<Name>) {
    forall n <- names :: |n| <= 127
  }

  /** Of what the kernel lists, everything is returned in order, or nothing once a name exceeds 127 bytes. */
  lemma {:induction false} WalkOfEncoded(names: seq<Name>)
    requires forall n <- names :: |n| <= 255
    ensures Walk(Encode(names)) == if forall n <- names :: |n| <= 127 then Some(names) else None
  {
    if names != [] {
      var n, rest := names[0], Encode(names[1..]);
      var buf := Encode(names);
      assert buf[0] == |n| as byte;
      WalkOfEncoded(names[1..]);
      assert names == [n] + names[1..];
      if |n| <= 127 {
        assert buf[1..1 + |n|] == n && buf[1 + |n|..] == rest;
        assert AllShort(names) <==> AllShort(names[1..]);
      }
    }
  }

  /** Conversely a walk that stays inside accounts for every byte, in only one way. */
  lemma {:induction false} WalkIsExact(buf: seq<byte>)
    requires Walk(buf).Some?
    ensures (forall n <- Walk(buf).value :: |n| <= 127) && Encode(Walk(buf).value) == buf
  {
    hide Walk, Encode;
    if buf == [] {
      NothingWalked();
    } else {
      var len := WalkUnfolds(buf);
      var name, rest := buf[1..1 + len], buf[1 + len..];
      WalkIsExact(rest);
      EncodeCons(name, Walk(rest).value);
      Pieces(buf, len);
    }
  }

  lemma NothingWalked()
    ensures Walk([]) == Some([]) && AllShort([]) && Encode([]) == []
  {
  }

  lemma WalkUnfolds(buf: seq<byte>) returns (len: nat)
    requires buf != [] && Walk(buf).Some?
    ensures len <= 127 && buf[0] == len as byte && 1 + len <= |buf| && Walk(buf[1 + len..]).Some?
    ensures Walk(buf).value == [buf[1..1 + len]] + Walk(buf[1 + len..]).value
  {
    len := SignedChar(buf[0]);
  }

  lemma Pieces(buf: seq<byte>, len: nat)
    requires 1 + len <= |buf|
    ensures buf == [buf[0]] + buf[1..1 + len] + buf[1 + len..]
  {
  }

  /** The kernel's format: a byte for the length, then the name. */
  lemma EncodeCons(name: Name, names: seq<Name>)
    requires |name| <= 127 && AllShort(names)
    ensures AllShort([name] + names) && Encode([name] + names) == [|name| as byte] + name + Encode(names)
  {
    assert ([name] + names)[1..] == names;
  }

  /** One attribute name of 128 bytes is enough to lose the whole list. */
  lemma LongNameRefused()
    ensures Walk(Encode([seq(128, _ => 97)])) == None
  {
    var n: Name := seq(128, _ => 97);
    assert n in [n];
    WalkOfEncoded([n]);
  }
}
