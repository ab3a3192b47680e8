/** Splitting what a read of an inotify descriptor returns into events (sys/inotify/lua_inotify.c). */
module InotifyRead {
  import opened Wrappers
  import opened CTypes

  /** sizeof(struct inotify_event): wd, mask, cookie and len */
  const HEADER: nat := 16

  /** The fields of the Lua table made for an event. */
  datatype Event = Event(wd: int32, mask: uint32, name: Option<seq<byte>>)

  /** Bytes up to the first NUL, as `lua_pushstring` takes them; None if there is none to stop at. */
  function CString(b: seq<byte>): Option<seq<byte>> {
    if b == [] then None
    else if b[0] == 0 then Some([])
    else
      Prepend([b[0]], CString(b[1..]))
  }

  function FieldLen(b: seq<byte>): nat
    requires |b| >= HEADER
  {
    LoadUint(b[12..16]) as int
  }

  /** The event at the start of b; None if reading it runs off the end. */
  function EventAt(b: seq<byte>): Option<Event> {
    if |b| < HEADER then None
    else
      var wd, mask := Signed(LoadUint(b[..4])), LoadUint(b[4..8]);
      if FieldLen(b) == 0 then Some(Event(wd, mask, None))
      else
        var name := CString(b[HEADER..]);
        if name.Some? then Some(Event(wd, mask, name)) else None
  }

  /** Four bytes as an unsigned number, the least significant first. */
  function FourBytes(b: seq<byte>, at: nat): int
    requires at + 4 <= |b|
  {
    b[at] as int + 0x100 * b[at + 1] as int + 0x1_0000 * b[at + 2] as int + 0x100_0000 * b[at + 3] as int
  }

  lemma {:induction false} CStringMeaning(b: seq<byte>)
    ensures CString(b).None? <==> 0 !in b
    ensures CString(b).Some? ==>
              var name := CString(b).value;
              |name| < |b| && b[..|name|] == name && 0 !in name && b[|name|] == 0
  {
    if b != [] {
      CStringMeaning(b[1..]);
      assert b == [b[0]] + b[1..];
    }
  }

  /** What is read where: wd, mask and len from bytes 0, 4 and 12, the name from byte 16 if len is not 0. */
  lemma EventBytes(b: seq<byte>)
    ensures EventAt(b).None? <==> |b| < 16 || (FourBytes(b, 12) > 0 && 0 !in b[16..])
    ensures EventAt(b).Some? ==>
              var e, len := EventAt(b).value, FourBytes(b, 12);
              && FieldLen(b) == len
              && e.mask as int == FourBytes(b, 4)
              && e.wd as int == FourBytes(b, 0) - (if b[3] < 128 then 0 else 0x1_0000_0000)
              && (e.name == None <==> len == 0)
              && (len > 0 ==>
                    var name := e.name.value;
                    && 16 + |name| < |b| && b[16..16 + |name|] == name
                    && 0 !in name && b[16 + |name|] == 0)
  {
    if |b| >= 16 {
      CStringMeaning(b[16..]);
      hide CString;
      assert b[..4][0] == b[0] && b[..4][3] == b[3];
      assert b[4..8][0] == b[4] && b[12..16][0] == b[12];
    }
  }

  /** All events; a record that reaches past the end is the last one. */
  function Walk(b: seq<byte>): Option<seq<Event>> {
    if b == [] then Some([])
    else if EventAt(b).None? then None
    else if HEADER + FieldLen(b) >= |b| then Some([EventAt(b).value])
    else Prepend([EventAt(b).value], Walk(b[HEADER + FieldLen(b)..]))
  }

  /** `pushevent` at offset ie of the n bytes read: the event, the next offset and what remains. */
  method PushEvent(data: array<byte>, n: nat, ie: nat, resid: int) returns (e: Option<Event>, next: nat, left: int)
    requires n <= data.Length && ie < n && resid == n - ie
    ensures e == EventAt(data[ie..n])
    ensures e.Some? ==> next == ie + HEADER + FieldLen(data[ie..n]) && left == n - next
  {
    e, next, left := None, ie, resid;
    if ie + HEADER > n {
      return;
    }
    ghost var b, all := data[ie..n], data[..];
    SliceOfSlice(all, ie, n, 0, 4);
    SliceOfSlice(all, ie, n, 4, 8);
    SliceOfSlice(all, ie, n, 12, 16);
    assert b[..4] == data[ie..ie + 4] && b[4..8] == data[ie + 4..ie + 8] && b[12..16] == data[ie + 12..ie + 16];
    assert b[HEADER..] == data[ie + HEADER..n];
    var field := LoadUint(data[ie + 12..ie + 16]);
    var len := HEADER + field as int;
    var wd, mask := Signed(LoadUint(data[ie..ie + 4])), LoadUint(data[ie + 4..ie + 8]);
    var name := None;
    if field > 0 {
      name := CString(data[ie + HEADER..n]);
      if name.None? {
        return;
      }
    }
    left := left - len;
    next := ie + len;
    e := Some(Event(wd, mask, name));
  }

  lemma NothingToWalk()
    ensures Walk([]) == Some([])
  {
  }

  lemma WalkStep(b: seq<byte>, ie: nat)
    requires ie < |b|
    ensures EventAt(b[ie..]).None? ==> Walk(b[ie..]).None?
    ensures EventAt(b[ie..]).Some? ==>
              var next := ie + HEADER + FieldLen(b[ie..]);
              Walk(b[ie..]) == Prepend([EventAt(b[ie..]).value], if next < |b| then Walk(b[next..]) else Some([]))
  {
    var here := b[ie..];
    if EventAt(here).Some? {
      assert [EventAt(here).value] + [] == [EventAt(here).value];
      var len := HEADER + FieldLen(here);
      if len < |here| {
        assert here[len..] == b[ie + len..];
      }
    }
  }

  /** The loop of `l_inotify_read` over the len bytes read; None is a read beyond them. */
  method ReadEvents(data: array<byte>, len: nat) returns (events: Option<seq<Event>>)
    requires len <= data.Length
    ensures events == Walk(data[..len])
  {
    var ie, resid := 0, len as int;
    var seen := [];
    ghost var b := data[..len];
    assert b[ie..] == b;
    PrependNothing(Walk(b));
    hide Walk, EventAt, FieldLen, Prepend;
    assert Walk([]) == Some([]) by {
      NothingToWalk();
    }
    while resid > 0
      invariant resid > 0 ==> ie + resid == len
      invariant Walk(b) == Prepend(seen, if resid > 0 then Walk(b[ie..]) else Some([]))
      decreases resid
    {
      assert b[ie..] == data[ie..len];
      WalkStep(b, ie);
      var e, next, left := PushEvent(data, len, ie, resid);
      if e.None? {
        PrependEnds(seen);
        return None;
      }
      PrependTwice(seen, [e.value], if left > 0 then Walk(b[next..]) else Some([]));
      seen := seen + [e.value];
      ie, resid := next, left;
    }
    PrependEnds(seen);
    events := Some(seen);
  }

  // --- what the kernel sends ---

  /** An event as the kernel queues it; a name is followed by 1 + pad NULs. */
  datatype Record = Record(wd: int32, mask: uint32, cookie: uint32, name: Option<seq<byte>>, pad: nat)

  predicate WellFormed(r: Record) {
    r.name.Some? ==> 0 !in r.name.value && |r.name.value| + 1 + r.pad < 0x1_0000_0000
  }

  function NameField(r: Record): (f: seq<byte>)
    requires WellFormed(r)
    ensures |f| < 0x1_0000_0000 && (f == [] <==> r.name.None?)
  {
    if r.name.None? then [] else r.name.value + [0] + seq(r.pad, _ => 0)
  }

  function Encode(r: Record): (b: seq<byte>)
    requires WellFormed(r)
    ensures |b| == HEADER + |NameField(r)|
  {
    IntBytes(r.wd) + UintBytes(r.mask) + UintBytes(r.cookie) + UintBytes(|NameField(r)| as uint32) + NameField(r)
  }

  function EncodeAll(rs: seq<Record>): seq<byte>
    requires forall r <- rs :: WellFormed(r)
  {
    if rs == [] then [] else Encode(rs[0]) + EncodeAll(rs[1..])
  }

  function Delivered(rs: seq<Record>): (es: seq<Event>)
    ensures |es| == |rs|
  {
    seq(|rs|, i requires 0 <= i < |rs| => Event(rs[i].wd, rs[i].mask, rs[i].name))
  }

  lemma {:induction false} CStringStops(s: seq<byte>, rest: seq<byte>)
    requires 0 !in s
    ensures CString(s + [0] + rest) == Some(s)
  {
    var b := s + [0] + rest;
    if s != [] {
      CStringStops(s[1..], rest);
      assert b[0] == s[0] && b[1..] == s[1..] + [0] + rest;
      assert [s[0]] + s[1..] == s;
    } else {
      assert b[0] == 0;
    }
  }

  /** The first of several records is read back, whatever follows it. */
  lemma FirstRecord(r: Record, more: seq<byte>)
    requires WellFormed(r)
    ensures var b := Encode(r) + more;
            EventAt(b) == Some(Event(r.wd, r.mask, r.name)) && HEADER + FieldLen(b) == |Encode(r)|
  {
    var b, f := Encode(r) + more, NameField(r);
    var len := |f| as uint32;
    assert b[..4] == IntBytes(r.wd) && b[4..8] == UintBytes(r.mask) && b[12..16] == UintBytes(len);
    LoadOfStored(Unsigned(r.wd));
    LoadOfStored(r.mask);
    LoadOfStored(len);
    SignedOfUnsigned(r.wd);
    if r.name.Some? {
      assert b[HEADER..] == r.name.value + [0] + (seq(r.pad, _ => 0) + more);
      CStringStops(r.name.value, seq(r.pad, _ => 0) + more);
    }
  }

  /** Any number of whole records are delivered exactly, in order. */
  lemma {:induction false} WalkOfEncoded(rs: seq<Record>)
    requires forall r <- rs :: WellFormed(r)
    ensures Walk(EncodeAll(rs)) == Some(Delivered(rs))
  {
    if rs != [] {
      var more := EncodeAll(rs[1..]);
      FirstRecord(rs[0], more);
      hide EventAt, FieldLen, Encode, WellFormed;
      WalkOfEncoded(rs[1..]);
      assert EncodeAll(rs)[|Encode(rs[0])|..] == more;
      assert Delivered(rs) == [Event(rs[0].wd, rs[0].mask, rs[0].name)] + Delivered(rs[1..]);
      assert more == [] ==> Delivered(rs) == [Event(rs[0].wd, rs[0].mask, rs[0].name)];
    }
  }
}
