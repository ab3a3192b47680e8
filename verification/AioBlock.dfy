/**
 The control block itself: its state transitions as the C code performs them, and the buffers
 it is built with and freed with (aio/lua_aio.c).
 */
module AioBlock {
  import opened Wrappers
  import opened AioProtocol

  /** The C heap: which addresses are allocated, and how many more allocations will succeed. */
  class Heap {
    var live: set<nat>
    var spare: nat
    var next: nat // above every address handed out so far

    ghost predicate Valid()
      reads this
    {
      forall p <- live :: p < next
    }

    constructor (spare: nat)
      ensures Valid() && live == {} && this.spare == spare
    {
      live, next, this.spare := {}, 0, spare;
    }

    /** `malloc` and `calloc` fail when memory runs out, and for a size that was negative. */
    method Allocate(size: int) returns (p: Option<nat>)
      requires Valid()
      modifies this
      ensures Valid()
      ensures p.Some? <==> size >= 0 && old(spare) > 0
      ensures p.None? ==> live == old(live) && spare == old(spare)
      ensures p.Some? ==> p.value !in old(live) && live == old(live) + {p.value} && spare == old(spare) - 1
    {
      if size < 0 || spare == 0 {
        return None;
      }
      p := Some(next);
      live := live + {next};
      next, spare := next + 1, spare - 1;
    }

    /** Freeing is only defined for an allocated address. */
    method Free(p: nat)
      requires Valid() && p in live
      modifies this`live
      ensures Valid() && live == old(live) - {p}
    {
      live := live - {p};
    }
  }

  /** One buffer of a vector; `base` is NULL until it is allocated. */
  datatype Iov = Iov(base: Option<nat>, content: Option<string>, len: int)

  /** An element of the table given to `shared`: initial contents, a size, or neither. */
  datatype Entry = Contents(s: string) | Size(n: int) | Invalid

  datatype BufferArg = NoBuffer | Vector(entries: seq<Entry>) | Single(entry: Entry)

  datatype Failure = NoMemory | BadDescription

  function Bases(iov: seq<Iov>): set<nat> {
    set k | 0 <= k < |iov| && iov[k].base.Some? :: iov[k].base.value
  }

  ghost predicate Distinct(iov: seq<Iov>) {
    forall j, k | 0 <= j < k < |iov| && iov[j].base.Some? && iov[k].base.Some? ::
      iov[j].base.value != iov[k].base.value
  }

  /** The buffer an entry asks for. */
  predicate Fits(v: Iov, e: Entry) {
    && v.base.Some?
    && match e
       case Contents(s) => v.content == Some(s) && v.len == |s|
       case Size(n) => v.content == None && v.len == n && n >= 0
       case Invalid => false
  }

  /** A string, or a size that is not negative. */
  predicate Proper(e: Entry) {
    e.Contents? || (e.Size? && e.n >= 0)
  }

  /** One buffer: the string copied in, or that many bytes left as they are. */
  method AllocateBuffer(heap: Heap, e: Entry) returns (r: Result<Iov, Failure>)
    requires heap.Valid()
    modifies heap
    ensures heap.Valid()
    ensures r.Ok? <==> Proper(e) && old(heap.spare) > 0
    ensures r.Err? ==> heap.live == old(heap.live) && heap.spare == old(heap.spare)
    ensures r.Ok? ==> Fits(r.value, e) && (r.value.content.Some? <==> e.Contents?)
                      && r.value.base.value !in old(heap.live) && heap.spare == old(heap.spare) - 1
                      && heap.live == old(heap.live) + {r.value.base.value}
    ensures r == Err(BadDescription) <==> e == Invalid
  {
    var content, len := None, 0;
    match e {
      case Contents(s) =>
        content, len := Some(s), |s|;
      case Size(n) =>
        len := n;
      case Invalid =>
        return Err(BadDescription);
    }
    var base := heap.Allocate(len);
    if base == None {
      return Err(NoMemory);
    }
    r := Ok(Iov(base, content, len));
  }

  class Rcaiocb {
    var state: CbState
    var saved: CbState
    const self: nat // the block's own address
    var vector: bool
    var vec: nat // address of the iovec array, when vector
    var iov: array<Iov>
    var buf: Option<nat>
    var content: Option<string>
    var nbytes: int

    constructor (self: nat)
      ensures this.self == self && state == saved == Uninit
      ensures !vector && buf == None && content == None && nbytes == 0
      ensures fresh(iov)
    {
      this.self, state, saved := self, Uninit, Uninit;
      vector, vec, buf, content, nbytes := false, 0, None, None, 0;
      iov := new Iov[0];
    }

    /** Every allocation the block is responsible for. */
    function Owned(): set<nat>
      reads this, iov
    {
      {self}
      + (if vector then {vec} + Bases(iov[..])
         else if buf.Some? then {buf.value} else {})
    }

    /** Those allocations are all different, so freeing them one by one is defined. */
    ghost predicate Separate()
      reads this, iov
    {
      && (vector ==> Distinct(iov[..]) && vec != self && vec !in Bases(iov[..]) && self !in Bases(iov[..]))
      && (!vector && buf.Some? ==> buf.value != self)
    }

    method Cas(expected: CbState, desired: CbState) returns (ok: bool)
      modifies this`state
      ensures ok == (old(state) == expected)
      ensures state == if ok then desired else old(state)
    {
      ok := state == expected;
      if ok {
        state := desired;
      }
    }

    /** Undisturbed, the second swap succeeds where the first failed, and `last` is the state left. */
    method TryBeginRead() returns (ok: bool, last: CbState)
      modifies this`state
      ensures ok == (old(state) in {Uninit, Init})
      ensures if ok then state == Pending && last == old(state) else state == old(state)
    {
      last := Uninit;
      ok := Cas(Uninit, Pending);
      if !ok {
        ok, last := TryBeginWrite();
      }
    }

    method TryBeginWrite() returns (ok: bool, last: CbState)
      modifies this`state
      ensures ok == (old(state) == Init)
      ensures if ok then state == Pending && last == old(state) else state == old(state)
    {
      last := Init;
      ok := Cas(Init, Pending);
    }

    method TryBeginReturn() returns (ok: bool)
      modifies this`state
      ensures ok == (old(state) == Pending)
      ensures state == if ok then Returning else old(state)
    {
      ok := Cas(Pending, Returning);
    }

    method Rollback(last: CbState)
      modifies this`state
      ensures state == last
    {
      state := last;
    }

    method Commit()
      modifies this`state, this`saved
      ensures state == saved == Init
    {
      saved := Init;
      state := saved;
    }

    /**
     `checkiovecs`: either the block owns the whole vector, or every allocation made on the way
     has been freed and the block is as it was.
     */
    method CheckIovecs(heap: Heap, entries: seq<Entry>) returns (r: Result<(), Failure>)
      requires heap.Valid() && self in heap.live && !vector && buf == None
      modifies heap, this
      ensures heap.Valid()
      ensures r.Err? ==> heap.live == old(heap.live)
                         && state == old(state) && saved == old(saved) && !vector && buf == None
      ensures r.Ok? ==> vector && fresh(iov) && Separate() && iov.Length == |entries|
                        && heap.live == old(heap.live) + Owned()
                        && (Owned() - {self}) !! old(heap.live)
      ensures r.Ok? ==> forall k | 0 <= k < |entries| ::
                          iov[k].base.Some? && if entries[k].Contents? then
                            iov[k].content == Some(entries[k].s) && iov[k].len == |entries[k].s|
                          else
                            entries[k].Size? && iov[k].content == None && iov[k].len == entries[k].n
      ensures r.Ok? <==>
                && old(heap.spare) > |entries|
                && (|| (forall e <- entries :: e.Contents?)
                    || (forall e <- entries :: e.Size? && e.n >= 0))
      ensures r.Err? && old(heap.spare) > |entries| && (forall e <- entries :: e.Size? ==> e.n >= 0) ==>
                r == Err(BadDescription)
      ensures r.Ok? ==> if entries != [] && (forall e <- entries :: e.Contents?) then state == saved == Init
                        else state == old(state) && saved == old(saved)
      ensures r == Err(BadDescription) ==>
                Invalid in entries || ((exists e <- entries :: e.Contents?) && exists e <- entries :: !e.Contents?)
    {
      var block := heap.Allocate(|entries|);
      if block == None {
        return Err(NoMemory);
      }
      var a := new Iov[|entries|](_ => Iov(None, None, 0));
      hide Bases, Distinct, Fits, Proper;
      var filled, ninit := FillIovecs(heap, entries, a, block.value, old(heap.live));
      if filled.Err? {
        FreeIovecs(heap, a, block.value);
        return filled;
      }
      if ninit > 0 {
        if ninit != |entries| {
          Mixed(entries);
          FreeIovecs(heap, a, block.value);
          return Err(BadDescription);
        }
        Commit();
      }
      AllFit(a[..], entries);
      iov, vec, vector := a, block.value, true;
      r := Ok(());
    }

    /** `checkbuf` for a string or an integer. */
    method CheckBuf(heap: Heap, e: Entry) returns (r: Result<(), Failure>)
      requires heap.Valid() && self in heap.live && !vector && buf == None
      modifies heap, this
      ensures heap.Valid() && !vector && iov == old(iov)
      ensures r.Ok? <==> (e.Contents? || (e.Size? && e.n >= 0)) && old(heap.spare) > 0
      ensures r.Err? ==> heap.live == old(heap.live)
                         && state == old(state) && saved == old(saved) && buf == None
      ensures r.Ok? ==> Separate() && heap.live == old(heap.live) + Owned()
                        && (Owned() - {self}) !! old(heap.live) && buf.Some?
                        && if e.Contents? then content == Some(e.s) && nbytes == |e.s|
                           else e.Size? && content == None && nbytes == e.n
      ensures r.Ok? ==> if e.Contents? then state == saved == Init
                        else state == old(state) && saved == old(saved)
      ensures r == Err(BadDescription) ==> e == Invalid
    {
      var v := AllocateBuffer(heap, e);
      if v.Err? {
        return Err(v.error);
      }
      if v.value.content.Some? {
        Commit();
      }
      buf, content, nbytes := v.value.base, v.value.content, v.value.len;
      r := Ok(());
    }

    /** The end of `l_aiocb_free`: everything the block owns, and nothing else, is freed. */
    method Destroy(heap: Heap)
      requires heap.Valid() && Separate() && Owned() <= heap.live
      modifies heap`live
      ensures heap.Valid() && heap.live == old(heap.live) - Owned()
    {
      if vector {
        FreeIovecs(heap, iov, vec);
      } else if buf.Some? {
        heap.Free(buf.value);
      }
      heap.Free(self);
    }
  }

  /** The loop of `checkiovecs`: how many buffers were initialised, or what stopped it. */
  method FillIovecs(heap: Heap, entries: seq<Entry>, a: array<Iov>, ghost block: nat, ghost before: set<nat>)
    returns (r: Result<(), Failure>, ninit: nat)
    requires heap.Valid() && heap.live == before + {block} && block !in before
    requires a.Length == |entries| && forall k | 0 <= k < |entries| :: a[k] == Iov(None, None, 0)
    modifies heap, a
    ensures heap.Valid() && heap.live == before + {block} + Bases(a[..])
    ensures Bases(a[..]) !! before && block !in Bases(a[..]) && Distinct(a[..])
    ensures r.Ok? ==> forall k | 0 <= k < |entries| :: Fits(a[k], entries[k]) && Proper(entries[k])
    ensures r.Ok? ==> old(heap.spare) >= |entries|
    ensures r.Ok? ==> (ninit == |entries| <==> forall k | 0 <= k < |entries| :: entries[k].Contents?)
    ensures r.Ok? ==> (ninit == 0 <==> forall k | 0 <= k < |entries| :: !entries[k].Contents?)
    ensures r.Err? && old(heap.spare) >= |entries| ==>
              && !(forall e <- entries :: e.Contents?) && !(forall e <- entries :: e.Size? && e.n >= 0)
              && ((forall e <- entries :: e.Size? ==> e.n >= 0) ==> r == Err(BadDescription))
    ensures r == Err(BadDescription) ==> Invalid in entries
  {
    NoBases(a[..]);
    hide Bases, Distinct, Fits, Proper;
    ninit := 0;
    for i := 0 to |entries|
      invariant 0 <= ninit <= i
      invariant heap.Valid() && heap.live == before + {block} + Bases(a[..])
      invariant Bases(a[..]) !! before && block !in Bases(a[..]) && Distinct(a[..])
      invariant heap.spare == old(heap.spare) - i
      invariant forall k | 0 <= k < i :: Fits(a[k], entries[k]) && Proper(entries[k])
      invariant forall k | i <= k < |entries| :: a[k] == Iov(None, None, 0)
      invariant ninit == i <==> forall k | 0 <= k < i :: entries[k].Contents?
      invariant ninit == 0 <==> forall k | 0 <= k < i :: !entries[k].Contents?
    {
      var v := AllocateBuffer(heap, entries[i]);
      if v.Err? {
        Improper(entries, i);
        return Err(v.error), ninit;
      }
      if v.value.content.Some? {
        ninit := ninit + 1;
      }
      ghost var was := a[..];
      a[i] := v.value;
      BasesExtended(was, i, a[i]);
      assert a[..] == was[i := a[i]];
    }
    r := Ok(());
  }

  /** The entry at i is what stands in the way, or memory does. */
  lemma Improper(entries: seq<Entry>, i: nat)
    requires i < |entries|
    ensures entries[i] in entries
    ensures !Proper(entries[i]) ==>
              && !(forall e <- entries :: e.Contents?) && !(forall e <- entries :: e.Size? && e.n >= 0)
              && (entries[i] == Invalid || (entries[i].Size? && entries[i].n < 0))
  {
  }

  lemma Mixed(entries: seq<Entry>)
    requires exists k | 0 <= k < |entries| :: entries[k].Contents?
    requires exists k | 0 <= k < |entries| :: !entries[k].Contents?
    ensures !(forall e <- entries :: e.Contents?) && !(forall e <- entries :: e.Size? && e.n >= 0)
    ensures (exists e <- entries :: e.Contents?) && (exists e <- entries :: !e.Contents?)
  {
    var j :| 0 <= j < |entries| && entries[j].Contents?;
    var k :| 0 <= k < |entries| && !entries[k].Contents?;
    assert entries[j] in entries && entries[k] in entries;
  }

  /** Every entry got what it asks for; and if none or all of them are strings, the description is in order. */
  lemma AllFit(iov: seq<Iov>, entries: seq<Entry>)
    requires |iov| == |entries| && forall k | 0 <= k < |entries| :: Fits(iov[k], entries[k]) && Proper(entries[k])
    ensures forall k | 0 <= k < |entries| ::
              iov[k].base.Some? && if entries[k].Contents? then
                iov[k].content == Some(entries[k].s) && iov[k].len == |entries[k].s|
              else
                entries[k].Size? && iov[k].content == None && iov[k].len == entries[k].n
    ensures (forall k | 0 <= k < |entries| :: entries[k].Contents?) ==> forall e <- entries :: e.Contents?
    ensures (forall k | 0 <= k < |entries| :: !entries[k].Contents?) ==> forall e <- entries :: e.Size? && e.n >= 0
  {
  }

  lemma NoBases(iov: seq<Iov>)
    requires forall k | 0 <= k < |iov| :: iov[k].base == None
    ensures Bases(iov) == {} && Distinct(iov)
  {
  }

  lemma BasesExtended(iov: seq<Iov>, i: nat, v: Iov)
    requires i < |iov| && iov[i].base == None && v.base.Some?
    ensures Bases(iov[i := v]) == Bases(iov) + {v.base.value}
    ensures Distinct(iov) && v.base.value !in Bases(iov) ==> Distinct(iov[i := v])
  {
    var after := iov[i := v];
    forall p | p in Bases(iov) + {v.base.value} ensures p in Bases(after) {
      if p == v.base.value {
        assert after[i].base.Some? && after[i].base.value == p;
      } else {
        var k :| 0 <= k < |iov| && iov[k].base.Some? && iov[k].base.value == p;
        assert after[k].base.Some? && after[k].base.value == p;
      }
    }
  }

  /** `freeiovecs`; freeing NULL is a no-op. */
  method FreeIovecs(heap: Heap, iov: array<Iov>, block: nat)
    requires heap.Valid() && block in heap.live && Bases(iov[..]) <= heap.live
    requires Distinct(iov[..]) && block !in Bases(iov[..])
    modifies heap`live
    ensures heap.Valid() && heap.live == old(heap.live) - {block} - Bases(iov[..])
  {
    for i := 0 to iov.Length
      invariant heap.Valid() && block in heap.live
      invariant heap.live == old(heap.live) - Bases(iov[..i])
    {
      assert iov[..i + 1] == iov[..i] + [iov[i]];
      assert Bases(iov[..i + 1]) == Bases(iov[..i]) + Bases([iov[i]]) by {
        BasesAppend(iov[..i], iov[i]);
      }
      if iov[i].base.Some? {
        assert iov[..][i].base.value in Bases(iov[..]);
        heap.Free(iov[i].base.value);
      }
    }
    assert iov[..iov.Length] == iov[..];
    heap.Free(block);
  }

  lemma BasesAppend(iov: seq<Iov>, v: Iov)
    ensures Bases(iov + [v]) == Bases(iov) + Bases([v])
  {
    forall p | p in Bases(iov) + Bases([v]) ensures p in Bases(iov + [v]) {
      if p in Bases(iov) {
        var k :| 0 <= k < |iov| && iov[k].base.Some? && iov[k].base.value == p;
        assert (iov + [v])[k].base.Some? && (iov + [v])[k].base.value == p;
      } else {
        assert (iov + [v])[|iov|].base.Some? && (iov + [v])[|iov|].base.value == p;
      }
    }
  }

  /** `aiocb.shared` up to its buffer; if that fails, the new userdata is finalised. */
  method Build(heap: Heap, arg: BufferArg) returns (cb: Rcaiocb?)
    requires heap.Valid()
    modifies heap
    ensures heap.Valid()
    ensures cb == null ==> heap.live == old(heap.live)
    ensures cb != null <==> match arg
                            case NoBuffer => old(heap.spare) > 0
                            case Vector(entries) =>
                              && old(heap.spare) > 1 + |entries|
                              && (|| (forall e <- entries :: e.Contents?)
                                  || (forall e <- entries :: e.Size? && e.n >= 0))
                            case Single(e) => old(heap.spare) > 1 && (e.Contents? || (e.Size? && e.n >= 0))
    ensures cb != null ==>
              && fresh(cb) && fresh(cb.iov) && cb.Separate()
              && heap.live == old(heap.live) + cb.Owned() && cb.Owned() !! old(heap.live)
              && cb.state == cb.saved
              && match arg
                 case NoBuffer => cb.state == Init
                 case Vector(entries) =>
                   cb.vector && cb.state == if entries != [] && forall e <- entries :: e.Contents? then Init else Uninit
                 case Single(e) => !cb.vector && cb.state == if e.Contents? then Init else Uninit
  {
    ghost var before := heap.live;
    var p := heap.Allocate(1);
    if p == None {
      return null;
    }
    var block := new Rcaiocb(p.value);
    var r: Result<(), Failure> := Ok(());
    match arg {
      case NoBuffer =>
        block.Commit();
      case Vector(entries) =>
        r := block.CheckIovecs(heap, entries);
      case Single(e) =>
        r := block.CheckBuf(heap, e);
    }
    if r.Err? {
      block.Destroy(heap);
      return null;
    }
    cb := block;
    assert cb.self !in before && (cb.Owned() - {cb.self}) !! before;
    assert forall q <- cb.Owned() :: q == cb.self || q in cb.Owned() - {cb.self};
  }

  /** Construction, successful or not, followed by the release of the last reference. */
  method SharedThenFreed(heap: Heap, arg: BufferArg)
    requires heap.Valid()
    modifies heap
    ensures heap.Valid() && heap.live == old(heap.live)
  {
    var cb := Build(heap, arg);
    if cb != null {
      cb.Destroy(heap);
    }
  }
}
