/** Walking the sysctl tree (sys/sysctl/lua_sysctl.c). */
module SysctlIter {
  import opened Wrappers
  import opened CTypes
  import opened Oid

  const CTL_KERN: int32 := 1

  ghost predicate Ascending(leaves: seq<Oid>) {
    forall i, j | 0 <= i < j < |leaves| :: Less(leaves[i], leaves[j])
  }

  /** The least leaf above q, by position. */
  ghost predicate IsNext(leaves: seq<Oid>, q: Oid, k: nat) {
    && k <= |leaves|
    && (forall i | 0 <= i < k :: !Less(q, leaves[i]))
    && (forall i | k <= i < |leaves| :: Less(q, leaves[i]))
  }

  /** The kernel's registered leaves, in order. */
  class Kernel {
    const leaves: seq<Oid>

    ghost predicate Valid() {
      && Ascending(leaves)
      && forall a <- leaves :: 1 <= |a| <= CTL_MAXNAME
    }

    constructor (leaves: seq<Oid>)
      requires forall i, j | 0 <= i < j < |leaves| :: Less(leaves[i], leaves[j])
      requires forall a <- leaves :: 1 <= |a| <= 24
      ensures Valid() && this.leaves == leaves
    {
      this.leaves := leaves;
    }

    /** CTL_SYSCTL_NEXT: the strict successor of q among the leaves; none is ENOENT. */
    method Next(q: Oid) returns (r: Option<Oid>, ghost k: nat)
      requires Valid()
      ensures IsNext(leaves, q, k)
      ensures r == if k < |leaves| then Some(leaves[k]) else None
    {
      var i := 0;
      while i < |leaves| && !Less(q, leaves[i])
        invariant 0 <= i <= |leaves|
        invariant forall j | 0 <= j < i :: !Less(q, leaves[j])
      {
        i := i + 1;
      }
      k := i;
      forall j | i <= j < |leaves| ensures Less(q, leaves[j]) {
        if i < j {
          LessTransitive(q, leaves[i], leaves[j]);
        }
      }
      r := if i < |leaves| then Some(leaves[i]) else None;
    }
  }

  class Mib {
    var oid: array<int32>
    var oidlen: nat
    var prefix: nat // in bytes

    ghost predicate Valid()
      reads this, oid
    {
      && oid.Length == CTL_MAXNAME && oidlen <= CTL_MAXNAME
      && prefix % INT_SIZE == 0 && prefix / INT_SIZE <= oidlen
      && oid[..] == Padded(oid[..oidlen])
    }

    function Name(): Oid
      requires oidlen <= oid.Length
      reads this, oid
    {
      oid[..oidlen]
    }

    /** The mib of `name`, in an iteration under a prefix of that many bytes. */
    ghost predicate Is(name: Oid, bytes: nat)
      reads this, oid
    {
      Valid() && Name() == name && prefix == bytes
    }

    /** `l_mib_oid` */
    method ReadOid(ghost name: Oid, ghost bytes: nat) returns (x: Oid)
      requires Is(name, bytes)
      ensures x == name
    {
      x := [];
      for i := 0 to oidlen
        invariant x == oid[..i]
      {
        x := x + [oid[i]];
      }
    }

    /** `memset` to zero. */
    constructor Zeroed()
      ensures fresh(oid) && oid[..] == seq(CTL_MAXNAME, _ => 0) && oidlen == 0 && prefix == 0
      ensures Valid()
    {
      oid := new int32[CTL_MAXNAME](_ => 0);
      oidlen, prefix := 0, 0;
      new;
      assert oid[..] == seq(CTL_MAXNAME, _ => 0);
      assert oid[..] == Padded([]);
    }

    /** The kernel writes an oid into the zeroed array. */
    method Fill(x: Oid)
      requires oid.Length == CTL_MAXNAME && |x| <= CTL_MAXNAME && oid[..] == seq(CTL_MAXNAME, _ => 0)
      modifies oid
      ensures oid[..] == Padded(x)
    {
      for i := 0 to |x|
        invariant oid[..i] == x[..i]
        invariant forall j | i <= j < CTL_MAXNAME :: oid[j] == 0
      {
        oid[i] := x[i];
        assert x[..i + 1] == x[..i] + [x[i]];
      }
      assert x[..|x|] == x;
      assert oid[..] == oid[..|x|] + oid[|x|..];
      assert oid[|x|..] == seq(CTL_MAXNAME - |x|, _ => 0);
    }
  }

  /** `l_sysctl`: with a name the kernel resolved to an oid, or without one. */
  method Sysctl(name: Option<Oid>) returns (mib: Mib)
    requires name.Some? ==> 1 <= |name.value| <= 24
    ensures fresh(mib) && fresh(mib.oid) && mib.Valid() && mib.oid.Length == 24
    ensures name.Some? ==> mib.Name() == name.value && mib.prefix == 4 * |name.value|
    ensures name.None? ==> mib.Name() == [1] && mib.prefix == 0
  {
    mib := new Mib.Zeroed();
    var oid := if name.Some? then name.value else [CTL_KERN];
    mib.Fill(oid);
    mib.oidlen := |oid|;
    assert mib.oid[..|oid|] == oid;
    if name.Some? {
      mib.prefix := mib.oidlen * INT_SIZE;
    }
  }

  /** The first `prefix` bytes, as ints. */
  function Root(name: Oid, prefix: nat): Oid
    requires prefix / INT_SIZE <= |name|
  {
    name[..prefix / INT_SIZE]
  }

  /** The comparison of two oid arrays over the prefix. */
  method MemcmpEqual(prev: Mib, next: Mib, prefix: nat, ghost p: Oid, ghost x: Oid) returns (same: bool)
    requires |p| <= CTL_MAXNAME && |x| <= CTL_MAXNAME && Less(p, x)
    requires prefix % INT_SIZE == 0 && prefix / INT_SIZE <= |p|
    requires prev.oid[..] == Padded(p) && next.oid[..] == Padded(x)
    ensures same <==> p[..prefix / 4] <= x
  {
    PrefixTest(p, x, prefix);
    same := Bytes(prev.oid[..])[..prefix] == Bytes(next.oid[..])[..prefix];
  }

  /** One step of `l_mib_iter_next` from a mib: its successor, if that is still under the prefix. */
  method IterNext(kernel: Kernel, prev: Mib) returns (next: Mib?, ghost k: nat)
    requires kernel.Valid() && prev.Valid()
    ensures IsNext(kernel.leaves, prev.Name(), k)
    ensures prev.prefix / 4 <= |prev.Name()|
    ensures next != null <==> k < |kernel.leaves| && prev.Name()[..prev.prefix / 4] <= kernel.leaves[k]
    ensures next != null ==>
              && fresh(next) && fresh(next.oid) && next.Valid()
              && next.oidlen <= next.oid.Length
              && next.Name() == kernel.leaves[k] && next.prefix == prev.prefix
  {
    var mib := new Mib.Zeroed();
    mib.prefix := prev.prefix;
    var r;
    r, k := kernel.Next(prev.Name());
    if r == None {
      return null, k;
    }
    var x := r.value;
    assert kernel.leaves[k] in kernel.leaves && x == kernel.leaves[k];
    ghost var p := prev.Name();
    assert prev.oid[..] == Padded(p);
    PaddedTake(x);
    hide Less, Ascending, IsNext, Padded, Root;
    mib.Fill(x);
    var same := MemcmpEqual(prev, mib, prev.prefix, p, x);
    if !same {
      return null, k;
    }
    mib.oidlen := |x|;
    assert mib.oid[..|x|] == mib.oid[..][..|x|];
    next := mib;
  }

  lemma PaddedTake(x: Oid)
    requires |x| <= CTL_MAXNAME
    ensures |Padded(x)| == CTL_MAXNAME && Padded(x)[..|x|] == x
  {
  }

  /** `memcmp` over the prefix decides whether the successor is still in the subtree. */
  lemma PrefixTest(p: Oid, x: Oid, prefix: nat)
    requires |p| <= CTL_MAXNAME && |x| <= CTL_MAXNAME && Less(p, x)
    requires prefix % INT_SIZE == 0 && prefix / INT_SIZE <= |p|
    ensures prefix <= |Bytes(Padded(p))| && prefix <= |Bytes(Padded(x))|
    ensures Bytes(Padded(p))[..prefix] == Bytes(Padded(x))[..prefix] <==> Root(p, prefix) <= x
  {
    var m := prefix / INT_SIZE;
    assert prefix == INT_SIZE * m;
    SameBytes(Padded(p), Padded(x), m);
    PaddedPrefix(p, x, m);
  }

  // --- what the iteration should visit ---

  /** The leaves strictly below root, in order. */
  function Subtree(leaves: seq<Oid>, root: Oid): seq<Oid> {
    if leaves == [] then []
    else (if root < leaves[0] then [leaves[0]] else []) + Subtree(leaves[1..], root)
  }

  /** The leaves after q, in order. */
  function After(leaves: seq<Oid>, q: Oid): seq<Oid> {
    if leaves == [] then []
    else (if Less(q, leaves[0]) then [leaves[0]] else []) + After(leaves[1..], q)
  }

  lemma {:induction false} AfterFrom(leaves: seq<Oid>, q: Oid, k: nat)
    requires IsNext(leaves, q, k)
    ensures After(leaves, q) == leaves[k..]
    decreases |leaves|
  {
    if leaves != [] {
      var n := if k == 0 then 0 else k - 1;
      AfterFrom(leaves[1..], q, n);
      assert leaves[1..][n..] == leaves[n + 1..];
      assert k == 0 ==> leaves[k..] == [leaves[0]] + leaves[1..];
    }
  }

  lemma {:induction false} NoneBelow(leaves: seq<Oid>, root: Oid)
    requires forall i | 0 <= i < |leaves| :: !(root < leaves[i])
    ensures Subtree(leaves, root) == []
  {
    if leaves != [] {
      NoneBelow(leaves[1..], root);
    }
  }

  lemma {:induction false} SubtreeIsFilter(leaves: seq<Oid>, root: Oid, a: Oid)
    ensures a in Subtree(leaves, root) <==> a in leaves && root < a
  {
    if leaves != [] {
      SubtreeIsFilter(leaves[1..], root, a);
    }
  }

  /** Whatever is below root comes after it. */
  lemma {:induction false} SubtreeAfter(leaves: seq<Oid>, root: Oid)
    ensures Subtree(After(leaves, root), root) == Subtree(leaves, root)
  {
    if leaves != [] {
      SubtreeAfter(leaves[1..], root);
      if Less(root, leaves[0]) {
        assert After(leaves, root) == [leaves[0]] + After(leaves[1..], root);
        assert After(leaves, root)[1..] == After(leaves[1..], root);
      } else if root < leaves[0] {
        ProperPrefixLess(root, leaves[0]);
      } else {
        assert After(leaves, root) == After(leaves[1..], root);
      }
    }
  }

  /** Once the successor leaves the subtree, no later leaf is in it. */
  lemma NoneAfter(visited: seq<Oid>, leaves: seq<Oid>, root: Oid, control: Oid, k: nat, all: seq<Oid>)
    requires Missing(visited, leaves, root, k, all)
    requires Ascending(leaves) && Between(leaves, root, control, k) && !InSubtree(leaves, root, k)
    ensures visited == all
  {
    forall i | k <= i < |leaves| ensures !(root < leaves[i]) {
      if k < i {
        PrefixConvex(root, control, leaves[k], leaves[i]);
      }
    }
    NoneBelow(leaves[k..], root);
    assert visited + [] == visited;
  }

  /** The successor of a leaf is the next leaf. */
  lemma NextPosition(leaves: seq<Oid>, k: nat, k': nat)
    requires Ascending(leaves) && k < |leaves| && IsNext(leaves, leaves[k], k')
    ensures k' == k + 1
  {
    LessIrreflexive(leaves[k]);
    assert k + 1 < |leaves| ==> Less(leaves[k], leaves[k + 1]);
  }

  /** What the iteration knows between two steps: k is the position of the successor of control. */
  ghost predicate Between(leaves: seq<Oid>, root: Oid, control: Oid, k: nat) {
    IsNext(leaves, control, k) && root <= control
  }

  ghost predicate InSubtree(leaves: seq<Oid>, root: Oid, k: nat) {
    k < |leaves| && root <= leaves[k]
  }

  /** The leaves below root from position k on are what is missing. */
  ghost predicate Missing(visited: seq<Oid>, leaves: seq<Oid>, root: Oid, k: nat, all: seq<Oid>) {
    k <= |leaves| && visited + Subtree(leaves[k..], root) == all
  }

  lemma VisitOne(visited: seq<Oid>, leaves: seq<Oid>, root: Oid, control: Oid, k: nat, all: seq<Oid>)
    requires Missing(visited, leaves, root, k, all)
    requires k < |leaves| && Between(leaves, root, control, k) && InSubtree(leaves, root, k)
    ensures Missing(visited + [leaves[k]], leaves, root, k + 1, all)
  {
    var x, rest := leaves[k], Subtree(leaves[k + 1..], root);
    StrictlyBelow(leaves, root, control, k);
    assert leaves[k..][1..] == leaves[k + 1..];
    assert visited + ([x] + rest) == visited + [x] + rest;
  }

  /** A step from a leaf: the next leaf, if that is still under the prefix. */
  method Advance(kernel: Kernel, mib: Mib, ghost k: nat, ghost root: Oid, ghost bytes: nat) returns (next: Mib?)
    requires kernel.Valid() && k < |kernel.leaves| && mib.Is(kernel.leaves[k], bytes)
    requires |root| == bytes / INT_SIZE && InSubtree(kernel.leaves, root, k)
    ensures k + 1 <= |kernel.leaves| && Between(kernel.leaves, root, kernel.leaves[k], k + 1)
    ensures next != null <==> InSubtree(kernel.leaves, root, k + 1)
    ensures next != null ==> fresh(next) && fresh(next.oid)
    ensures next != null ==> k + 1 < |kernel.leaves| && next.Is(kernel.leaves[k + 1], bytes)
  {
    ghost var k';
    next, k' := IterNext(kernel, mib);
    NextPosition(kernel.leaves, k, k');
  }

  /**
   A `for` loop from a control variable, be it a named root, a mib such a loop yielded, or one without
   a prefix: the leaves after the mib that lie below its prefix, each once, in order.
   */
  method IterateFrom(kernel: Kernel, start: Mib) returns (visited: seq<Oid>)
    requires kernel.Valid() && start.Valid()
    ensures start.prefix / 4 <= |start.Name()|
    ensures visited == Subtree(After(kernel.leaves, start.Name()), start.Name()[..start.prefix / 4])
  {
    ghost var bytes, first, root := start.prefix, start.Name(), Root(start.Name(), start.prefix);
    visited := [];
    var mib: Mib?;
    ghost var k;
    mib, k := IterNext(kernel, start);
    ghost var leaves, control, all := kernel.leaves, first, Subtree(After(kernel.leaves, first), root);
    AfterFrom(leaves, first, k);
    assert visited + all == all;
    hide *;
    while mib != null
      invariant Between(leaves, root, control, k) && Missing(visited, leaves, root, k, all)
      invariant mib != null <==> InSubtree(leaves, root, k)
      invariant mib != null ==> k < |leaves| && mib.Is(leaves[k], bytes)
      decreases |leaves| - k
    {
      var x := mib.ReadOid(leaves[k], bytes);
      VisitOne(visited, leaves, root, control, k, all);
      visited := visited + [x];
      mib := Advance(kernel, mib, k, root, bytes);
      control, k := x, k + 1;
    }
    NoneAfter(visited, leaves, root, control, k, all);
  }

  /** For a named root these are all the leaves below it. */
  method IterateNamed(kernel: Kernel, root: Mib) returns (visited: seq<Oid>)
    requires kernel.Valid() && root.Valid() && root.oidlen > 0 && root.prefix == 4 * root.oidlen
    ensures visited == Subtree(kernel.leaves, root.Name())
  {
    visited := IterateFrom(kernel, root);
    assert Root(root.Name(), root.prefix) == root.Name();
    SubtreeAfter(kernel.leaves, root.Name());
  }

  lemma StrictlyBelow(leaves: seq<Oid>, root: Oid, control: Oid, k: nat)
    requires IsNext(leaves, control, k) && k < |leaves| && root <= control && root <= leaves[k]
    ensures root < leaves[k]
  {
    assert Less(control, leaves[k]);
    if leaves[k] == root {
      if root < control {
        ProperPrefixLess(root, control);
        LessTransitive(control, root, control);
        LessIrreflexive(control);
      } else {
        assert root == control;
        LessIrreflexive(root);
      }
    }
  }

  lemma {:induction false} EveryLeafBelow(leaves: seq<Oid>)
    requires forall a <- leaves :: a != []
    ensures Subtree(leaves, []) == leaves
  {
    if leaves != [] {
      assert leaves[0] in leaves && forall a <- leaves[1..] :: a in leaves;
      EveryLeafBelow(leaves[1..]);
    }
  }

  /** Without a name the loop visits its starting point, then every leaf after it. */
  method IterateAll(kernel: Kernel, start: Mib) returns (visited: seq<Oid>)
    requires kernel.Valid() && start.Valid() && start.prefix == 0
    ensures visited == [start.Name()] + After(kernel.leaves, start.Name())
  {
    // the first call has no control variable and returns the mib itself
    var first := start.Name();
    var others := IterateFrom(kernel, start);
    assert Root(first, 0) == [];
    forall a | a in After(kernel.leaves, first) ensures a != [] {
      AfterIsFilter(kernel.leaves, first, a);
    }
    EveryLeafBelow(After(kernel.leaves, first));
    visited := [first] + others;
  }

  lemma {:induction false} AfterIsFilter(leaves: seq<Oid>, q: Oid, a: Oid)
    ensures a in After(leaves, q) <==> a in leaves && Less(q, a)
  {
    if leaves != [] {
      AfterIsFilter(leaves[1..], q, a);
    }
  }

  /** Nothing is missed or repeated: the visited leaves are distinct and are exactly those below root. */
  lemma SubtreeExact(leaves: seq<Oid>, root: Oid)
    requires Ascending(leaves)
    ensures forall a :: a in Subtree(leaves, root) <==> a in leaves && root < a
    ensures Ascending(Subtree(leaves, root))
  {
    forall a ensures a in Subtree(leaves, root) <==> a in leaves && root < a {
      SubtreeIsFilter(leaves, root, a);
    }
    SubtreeAscending(leaves, root);
  }

  lemma {:induction false} SubtreeAscending(leaves: seq<Oid>, root: Oid)
    requires Ascending(leaves)
    ensures Ascending(Subtree(leaves, root))
  {
    if leaves != [] {
      SubtreeAscending(leaves[1..], root);
      var rest := Subtree(leaves[1..], root);
      forall i | 0 <= i < |rest| ensures Less(leaves[0], rest[i]) {
        SubtreeIsFilter(leaves[1..], root, rest[i]);
        assert rest[i] in leaves[1..];
        var j :| 1 <= j < |leaves| && leaves[j] == rest[i];
      }
    }
  }
}
