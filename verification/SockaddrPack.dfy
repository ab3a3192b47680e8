/**
 Packed arrays of variable-length socket addresses: `checkaddrs` and `pushaddrs` in
 netinet/sctp/lua_sctp.c, with the record layout of sys/socket/lua_socket.h.

 A record is `sa_len` and `sa_family`, one byte each, and `sa_data`.
 */
module SockaddrPack {
  import opened CTypes
  import opened Wrappers

  const HEADER: nat := 2 // offsetof(struct sockaddr, sa_data)

  datatype Addr = Addr(family: int, data: seq<byte>)

  /** An element of the Lua table: `family` may be no integer, `data` no string. */
  datatype AddrArg = AddrArg(family: Option<int>, data: Option<seq<byte>>)

  datatype Failure = NoAddress | InvalidSockaddr | NoMemory

  predicate WellTyped(args: seq<AddrArg>) {
    forall a <- args :: a.family.Some? && a.data.Some?
  }

  function AddrsOf(args: seq<AddrArg>): (addrs: seq<Addr>)
    requires WellTyped(args)
    ensures |addrs| == |args|
  {
    seq(|args|, i requires 0 <= i < |args| => Addr(args[i].family.value, args[i].data.value))
  }

  /** The address survives the 8-bit length and family fields. */
  predicate Fits(a: Addr) {
    0 <= a.family < 0x100 && |a.data| + HEADER < 0x100
  }

  function Record(a: Addr): seq<byte> {
    [((HEADER + |a.data|) % 0x100) as byte, (a.family % 0x100) as byte] + a.data
  }

  function Pack(addrs: seq<Addr>): (s: seq<byte>)
  {
    if addrs == [] then [] else Pack(addrs[..|addrs| - 1]) + Record(addrs[|addrs| - 1])
  }

  /** What the first pass computes. */
  function Size(args: seq<AddrArg>): nat
    requires forall a <- args :: a.data.Some?
  {
    if args == [] then 0
    else Size(args[..|args| - 1]) + HEADER + |args[|args| - 1].data.value|
  }

  lemma {:induction false} SizeMonotone(args: seq<AddrArg>, i: nat)
    requires (forall a <- args :: a.data.Some?) && i <= |args|
    ensures Size(args[..i]) <= Size(args)
    decreases |args| - i
  {
    if i < |args| {
      assert args[..i + 1][..i] == args[..i];
      SizeMonotone(args, i + 1);
    } else {
      assert args[..i] == args;
    }
  }

  /** First pass: the size of the buffer. */
  method Measure(args: seq<AddrArg>) returns (r: Result<nat, Failure>)
    ensures r.Ok? <==> forall a <- args :: a.data.Some?
    ensures r.Ok? ==> r.value == Size(args)
    ensures r.Ok? && |args| == 1 ==> r.value == 2 + |args[0].data.value|
    ensures r.Err? ==> r.error == InvalidSockaddr
  {
    var size := |args| * HEADER;
    for i := 0 to |args|
      invariant forall a <- args[..i] :: a.data.Some?
      invariant size == Size(args[..i]) + (|args| - i) * HEADER
    {
      assert args[..i + 1] == args[..i] + [args[i]];
      assert args[..i + 1][..i] == args[..i];
      if args[i].data == None {
        assert args[i] in args;
        return Err(InvalidSockaddr);
      }
      size := size + |args[i].data.value|;
    }
    assert args[..|args|] == args;
    r := Ok(size);
  }

  /**
   Second pass.  No write leaves the buffer the first pass measured, whatever the lengths,
   although the position advances by the truncated `sa_len`.
   */
  method Fill(args: seq<AddrArg>, buf: array<byte>) returns (ok: bool)
    requires (forall a <- args :: a.data.Some?) && buf.Length == Size(args)
    modifies buf
    ensures ok == WellTyped(args)
    ensures ok && (forall a <- AddrsOf(args) :: Fits(a)) ==> buf[..] == Pack(AddrsOf(args))
  {
    var at := 0;
    for i := 0 to |args|
      invariant WellTyped(args[..i])
      invariant 0 <= at <= Size(args[..i]) <= buf.Length
      invariant Filled(args[..i], buf[..at])
    {
      SizeStep(args, i);
      hide Size, Record, Filled;
      if args[i].family == None {
        return false;
      }
      ghost var done := buf[..at];
      var data := args[i].data.value;
      ghost var end := at + HEADER + |data|;
      at := WriteRecord(buf, at, args[i].family.value, data);
      FilledStep(args, i, done, buf[..end], at);
      assert buf[..end][..at] == buf[..at];
    }
    assert args[..|args|] == args;
    assert buf[..buf.Length] == buf[..];
    ok := true;
  }

  /** If everything so far fits its records, `done` is those records. */
  ghost predicate Filled(args: seq<AddrArg>, done: seq<byte>) {
    WellTyped(args) && ((forall a <- AddrsOf(args) :: Fits(a)) ==> |done| == Size(args) && done == Pack(AddrsOf(args)))
  }

  lemma SizeStep(args: seq<AddrArg>, i: nat)
    requires (forall a <- args :: a.data.Some?) && i < |args|
    ensures args[i].data.Some? && (forall a <- args[..i + 1] :: a.data.Some?)
    ensures Size(args[..i + 1]) == Size(args[..i]) + HEADER + |args[i].data.value|
    ensures Size(args[..i + 1]) <= Size(args)
    ensures args[i].family.None? ==> !WellTyped(args)
    ensures WellTyped(args[..i]) && args[i].family.Some? ==> WellTyped(args[..i + 1])
  {
    assert args[i] in args;
    assert args[..i + 1] == args[..i] + [args[i]];
    assert args[..i + 1][..i] == args[..i];
    SizeMonotone(args, i + 1);
  }

  lemma FilledStep(args: seq<AddrArg>, i: nat, done: seq<byte>, written: seq<byte>, at: nat)
    requires i < |args| && WellTyped(args[..i + 1]) && args[i].family.Some? && args[i].data.Some?
    requires Filled(args[..i], done)
    requires var a := Addr(args[i].family.value, args[i].data.value);
             && |written| == |done| + HEADER + |a.data| && written[..|done|] == done
             && written[|done|..] == Record(a)
             && at == |done| + (HEADER + |a.data|) % 0x100
    ensures at <= |written| && Filled(args[..i + 1], written[..at])
  {
    PackStep(args, i);
    assert args[..i + 1] == args[..i] + [args[i]];
    assert args[..i + 1][..i] == args[..i];
    hide Record, Pack, Size;
    if forall a <- AddrsOf(args[..i + 1]) :: Fits(a) {
      SizeStep(args[..i + 1], i);
      FitsStep(args, i);
      assert written == written[..|done|] + written[|done|..];
      assert written[..at] == written;
    }
  }

  /** Both passes; `memory` says whether `malloc` succeeds in between. */
  method CheckAddrs(args: seq<AddrArg>, memory: bool) returns (r: Result<array<byte>, Failure>)
    ensures args == [] ==> r == Err(NoAddress)
    ensures args != [] ==>
              if exists a <- args :: a.data.None? then r == Err(InvalidSockaddr)
              else if !memory then r == Err(NoMemory)
              else if exists a <- args :: a.family.None? then r == Err(InvalidSockaddr)
              else r.Ok? && WellTyped(args) && fresh(r.value) && r.value.Length == Size(args)
    ensures r.Ok? && (forall a <- AddrsOf(args) :: Fits(a)) ==> r.value[..] == Pack(AddrsOf(args))
  {
    if |args| == 0 {
      return Err(NoAddress);
    }
    var size := Measure(args);
    if size.Err? {
      return Err(size.error);
    }
    if !memory {
      return Err(NoMemory);
    }
    var buf := new byte[size.value];
    var ok := Fill(args, buf);
    r := if ok then Ok(buf) else Err(InvalidSockaddr);
  }

  /** One turn of the second pass; the result is the next position. */
  method WriteRecord(buf: array<byte>, at: nat, family: int, data: seq<byte>) returns (next: nat)
    requires at + HEADER + |data| <= buf.Length
    modifies buf
    ensures next == at + (HEADER + |data|) % 0x100
    ensures buf[..at] == old(buf[..at])
    ensures buf[at..at + HEADER + |data|] == Record(Addr(family, data))
    ensures buf[at] as int == (2 + |data|) % 0x100 && buf[at + 1] as int == family % 0x100
    ensures buf[at + 2..at + 2 + |data|] == data
    ensures buf[at + HEADER + |data|..] == old(buf[at + HEADER + |data|..])
  {
    buf[at + 1] := (family % 0x100) as byte;
    for k := 0 to |data|
      invariant buf[..at] == old(buf[..at]) && buf[at + 1] == (family % 0x100) as byte
      invariant buf[at + HEADER..at + HEADER + k] == data[..k]
      invariant buf[at + HEADER + |data|..] == old(buf[at + HEADER + |data|..])
    {
      buf[at + HEADER + k] := data[k];
    }
    assert data[..|data|] == data;
    buf[at] := ((HEADER + |data|) % 0x100) as byte;
    assert buf[at + HEADER..at + HEADER + |data|] == data;
    assert buf[at..at + HEADER + |data|] == [buf[at], buf[at + 1]] + data;
    next := at + buf[at] as nat;
  }

  lemma PackStep(args: seq<AddrArg>, i: nat)
    requires i < |args| && WellTyped(args[..i + 1])
    ensures WellTyped(args[..i])
    ensures AddrsOf(args[..i + 1]) == AddrsOf(args[..i]) + [Addr(args[i].family.value, args[i].data.value)]
    ensures Pack(AddrsOf(args[..i + 1]))
         == Pack(AddrsOf(args[..i])) + Record(Addr(args[i].family.value, args[i].data.value))
  {
    assert forall a <- args[..i] :: a in args[..i + 1];
    var all := AddrsOf(args[..i + 1]);
    assert all[..i] == AddrsOf(args[..i]);
  }

  lemma FitsStep(args: seq<AddrArg>, i: nat)
    requires i < |args| && WellTyped(args[..i + 1]) && forall a <- AddrsOf(args[..i + 1]) :: Fits(a)
    ensures WellTyped(args[..i]) && forall a <- AddrsOf(args[..i]) :: Fits(a)
    ensures Fits(Addr(args[i].family.value, args[i].data.value))
  {
    PackStep(args, i);
    var all := AddrsOf(args[..i + 1]);
    assert all[i] == Addr(args[i].family.value, args[i].data.value);
    assert all[i] in all;
  }

  // --- reading back ---

  /** `pushaddr`, where the record lies within the buffer. */
  function ReadRecord(s: seq<byte>): Option<Addr> {
    if |s| >= HEADER && HEADER <= s[0] as nat <= |s| then
      Some(Addr(s[1] as int, s[HEADER..s[0] as nat]))
    else
      None
  }

  /** n records from the start of s; None if one does not lie within it. */
  function Unpack(s: seq<byte>, n: nat): Option<seq<Addr>> {
    if n == 0 then Some([])
    else
      var first := ReadRecord(s);
      if first == None then None
      else Prepend([first.value], Unpack(s[s[0] as nat..], n - 1))
  }

  method PushAddrs(s: seq<byte>, n: nat) returns (r: Option<seq<Addr>>)
    ensures r == Unpack(s, n)
  {
    var addrs, at: nat := [], 0;
    assert s[0..] == s;
    PrependNothing(Unpack(s, n));
    hide Unpack, ReadRecord, Prepend;
    for i := 0 to n
      invariant at <= |s|
      invariant Prepend(addrs, Unpack(s[at..], n - i)) == Unpack(s, n)
    {
      UnpackStep(s, at, n - i);
      var a := ReadRecord(s[at..]);
      if a == None {
        PrependEnds(addrs);
        return None;
      }
      ghost var before := addrs;
      addrs, at := addrs + [a.value], at + s[at] as nat;
      PrependTwice(before, [a.value], Unpack(s[at..], n - i - 1));
    }
    UnpackNothing(s[at..]);
    PrependEnds(addrs);
    r := Some(addrs);
  }

  /** A record is read by its own length byte: family, then data; the next one starts after that many bytes. */
  lemma RecordsByLength(s: seq<byte>, n: nat)
    requires n > 0
    ensures if |s| < 2 || s[0] < 2 || s[0] as int > |s| then Unpack(s, n) == None
            else Unpack(s, n) == Prepend([Addr(s[1] as int, s[2..s[0] as int])], Unpack(s[s[0] as int..], n - 1))
  {
  }

  lemma UnpackNothing(s: seq<byte>)
    ensures Unpack(s, 0) == Some([])
  {
  }

  lemma UnpackStep(s: seq<byte>, at: nat, n: nat)
    requires at <= |s| && n > 0
    ensures ReadRecord(s[at..]) == None ==> Unpack(s[at..], n) == None
    ensures ReadRecord(s[at..]).Some? ==>
              && at < |s| && at + s[at] as nat <= |s|
              && Unpack(s[at..], n) == Prepend([ReadRecord(s[at..]).value], Unpack(s[at + s[at] as nat..], n - 1))
  {
    if ReadRecord(s[at..]).Some? {
      assert s[at..][0] == s[at];
      assert s[at..][s[at] as nat..] == s[at + s[at] as nat..];
    }
  }

  lemma {:induction false} PackAppend(a: Addr, rest: seq<Addr>)
    ensures Pack([a] + rest) == Record(a) + Pack(rest)
    decreases |rest|
  {
    hide Record;
    if rest == [] {
      assert [a] + rest == [a] && [a][..0] == [];
      assert Pack([a][..0]) == [];
    } else {
      var n := |rest| - 1;
      assert ([a] + rest)[..n + 1] == [a] + rest[..n];
      PackAppend(a, rest[..n]);
      assert Record(a) + Pack(rest[..n]) + Record(rest[n]) == Record(a) + (Pack(rest[..n]) + Record(rest[n]));
    }
  }

  /** A record is read back whatever follows it. */
  lemma FirstRecord(a: Addr, more: seq<byte>)
    requires Fits(a)
    ensures var s := Record(a) + more;
            && ReadRecord(s) == Some(a) && s != [] && s[0] as nat == |Record(a)|
            && s[|Record(a)|..] == more
  {
    var s := Record(a) + more;
    assert s[HEADER..HEADER + |a.data|] == a.data;
  }

  /** Unpacking what was packed. */
  lemma {:induction false} UnpackPack(addrs: seq<Addr>)
    requires forall a <- addrs :: Fits(a)
    ensures Unpack(Pack(addrs), |addrs|) == Some(addrs)
  {
    if addrs != [] {
      var a, rest := addrs[0], addrs[1..];
      assert addrs == [a] + rest && a in addrs;
      PackAppend(a, rest);
      FirstRecord(a, Pack(rest));
      hide Record, ReadRecord, Fits, Pack;
      UnpackPack(rest);
    }
  }

  /** Whatever the buffer holds, only addresses that fit come out of it. */
  lemma {:induction false} UnpackFits(s: seq<byte>, n: nat)
    ensures Unpack(s, n).Some? ==> forall a <- Unpack(s, n).value :: Fits(a)
  {
    if n > 0 && ReadRecord(s).Some? {
      UnpackFits(s[s[0] as nat..], n - 1);
    }
  }

  /**
   Packing and unpacking returns the original list, each family and datum in its place, exactly when
   every family fits a byte and every datum with its two bytes of header fits 255.
   */
  method RoundTrip(args: seq<AddrArg>) returns (r: Result<Option<seq<Addr>>, Failure>)
    ensures r.Ok? <==> args != [] && forall a <- args :: a.family.Some? && a.data.Some?
    ensures r.Ok? ==>
              ((&& r.value.Some? && |r.value.value| == |args|
                && forall i | 0 <= i < |args| ::
                     r.value.value[i] == Addr(args[i].family.value, args[i].data.value))
               <==> forall a <- args :: 0 <= a.family.value < 256 && |a.data.value| <= 253)
  {
    var packed := CheckAddrs(args, true);
    if packed.Err? {
      return Err(packed.error);
    }
    var addrs := AddrsOf(args);
    var back := PushAddrs(packed.value[..], |args|);
    UnpackFits(packed.value[..], |args|);
    AllFit(args);
    if forall a <- addrs :: Fits(a) {
      UnpackPack(addrs);
    }
    assert back == Some(addrs) <==> forall a <- addrs :: Fits(a);
    assert back.Some? && |back.value| == |args| && (forall i | 0 <= i < |args| :: back.value[i] == addrs[i]) ==>
        back.value == addrs;
    r := Ok(back);
  }

  lemma AllFit(args: seq<AddrArg>)
    requires WellTyped(args)
    ensures (forall a <- AddrsOf(args) :: Fits(a)) <==>
              forall a <- args :: 0 <= a.family.value < 256 && |a.data.value| <= 253
  {
    var addrs := AddrsOf(args);
    assert forall i | 0 <= i < |args| :: addrs[i] in addrs && args[i] in args;
  }
}
