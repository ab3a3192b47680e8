/**
 Kernel `%b` flag tables (libifconfig/lua_ifconfig.c): a C string holding a numeric-format
 character and then, for each flag, its bit number and its name.
 */
module FlagTable {
  import opened Wrappers
  import opened CTypes
  import opened Bits

  type Byte = byte
  type Name = seq<Byte>

  datatype Entry = Entry(bit: Byte, name: Name)

  /** The integer key of a Lua table slot. */
  datatype Key = Key(bit: Byte)

  /** `c > 32` for a signed char. */
  predicate NameChar(c: Byte) {
    32 < c < 128
  }

  predicate ValidBit(i: Byte) {
    1 <= i <= 32
  }

  function NameLength(s: seq<Byte>): (n: nat)
    ensures n <= |s|
    ensures forall k | 0 <= k < n :: NameChar(s[k])
    ensures n < |s| ==> !NameChar(s[n])
  {
    if s == [] || !NameChar(s[0]) then 0 else 1 + NameLength(s[1..])
  }

  /** The entries of a table after its first character. */
  function Parse(s: seq<Byte>): seq<Entry>
    decreases |s|
  {
    if s == [] || s[0] == 0 then []
    else
      var n := NameLength(s[1..]);
      [Entry(s[0], s[1..1 + n])] + Parse(s[1 + n..])
  }

  function Entries(bits: seq<Byte>): seq<Entry>
    requires |bits| > 0
  {
    Parse(bits[1..])
  }

  predicate ValidEntries(es: seq<Entry>) {
    forall e <- es :: ValidBit(e.bit) && (forall c <- e.name :: NameChar(c))
  }

  /** A NUL-terminated string with at least its first character, naming bits 1 to 32. */
  predicate ValidTable(bits: seq<Byte>) {
    && |bits| > 1 && bits[|bits| - 1] == 0
    && (forall i | 0 <= i < |bits| - 1 :: bits[i] != 0)
    && ValidEntries(Entries(bits))
  }

  // --- encoding ---

  function EncodeFrom(t: map<Key, Name>, v: nat, es: seq<Entry>): map<Key, Name>
    requires ValidEntries(es)
    decreases es
  {
    if es == [] then t
    else EncodeFrom(if Has(v, es[0].bit as nat) then t[Key(es[0].bit) := es[0].name] else t, v, es[1..])
  }

  /** The table `push_flags_array` builds: bit number to name, for the bits set in v. */
  function Encode(v: nat, es: seq<Entry>): map<Key, Name>
    requires ValidEntries(es)
  {
    EncodeFrom(map[], v, es)
  }

  /** The loop that steps over a name. */
  method SkipName(bits: seq<Byte>, p: nat) returns (q: nat)
    requires p < |bits| && bits[|bits| - 1] == 0
    ensures q == p + NameLength(bits[p..]) && p <= q < |bits|
    ensures !(32 < bits[q] < 128) && forall k | p <= k < q :: 32 < bits[k] < 128
  {
    q := p;
    while NameChar(bits[q])
      invariant p <= q < |bits|
      invariant forall k | p <= k < q :: NameChar(bits[k])
      decreases |bits| - q
    {
      q := q + 1;
    }
    assert forall k | 0 <= k < q - p :: bits[p..][k] == bits[p + k];
    NameEnds(bits[p..], q - p);
  }

  method PushFlagsArray(v: nat, bits: seq<Byte>) returns (t: map<Key, Name>)
    requires ValidTable(bits)
    ensures t == Encode(v, Entries(bits))
  {
    t := map[];
    var p := 1;
    hide Has, EncodeFrom, Parse, NameLength, ValidEntries;
    while bits[p] != 0
      invariant 1 <= p < |bits|
      invariant ValidEntries(Parse(bits[p..]))
      invariant EncodeFrom(t, v, Parse(bits[p..])) == Encode(v, Entries(bits))
      decreases |bits| - p
    {
      var i := bits[p];
      var q := SkipName(bits, p + 1);
      EntryAt(bits, p, q);
      EncodeEntry(t, v, bits, p, q);
      if Has(v, i as nat) {
        t := t[Key(i) := bits[p + 1..q]];
      }
      p := q;
    }
    EntriesEnd(bits, p);
    EncodeEnd(t, v);
  }

  /** One turn of either loop: the entry at p ends at q. */
  lemma EntryAt(bits: seq<Byte>, p: nat, q: nat)
    requires p < q <= |bits| && bits[p] != 0 && q == p + 1 + NameLength(bits[p + 1..])
    requires ValidEntries(Parse(bits[p..]))
    ensures Parse(bits[p..]) == [Entry(bits[p], bits[p + 1..q])] + Parse(bits[q..])
    ensures ValidBit(bits[p]) && ValidEntries(Parse(bits[q..]))
    ensures forall c <- bits[p + 1..q] :: NameChar(c)
  {
    assert bits[p..][1..] == bits[p + 1..];
    assert bits[p..][q - p..] == bits[q..];
    assert bits[p..][1..q - p] == bits[p + 1..q];
    var es := Parse(bits[p..]);
    assert es == [Entry(bits[p], bits[p + 1..q])] + Parse(bits[q..]);
    assert es[0] in es;
    assert es[1..] == Parse(bits[q..]);
  }

  lemma EntriesEnd(bits: seq<Byte>, p: nat)
    requires p < |bits| && bits[p] == 0
    ensures Parse(bits[p..]) == []
  {
  }

  lemma EncodeEntry(t: map<Key, Name>, v: nat, bits: seq<Byte>, p: nat, q: nat)
    requires p < q <= |bits| && ValidEntries(Parse(bits[p..])) && ValidEntries(Parse(bits[q..])) && ValidBit(bits[p])
    requires Parse(bits[p..]) == [Entry(bits[p], bits[p + 1..q])] + Parse(bits[q..])
    ensures EncodeFrom(t, v, Parse(bits[p..]))
         == EncodeFrom(if Has(v, bits[p] as nat) then t[Key(bits[p]) := bits[p + 1..q]] else t, v, Parse(bits[q..]))
  {
    hide Parse, Has;
    assert Parse(bits[p..])[1..] == Parse(bits[q..]);
  }

  lemma EncodeEnd(t: map<Key, Name>, v: nat)
    ensures EncodeFrom(t, v, []) == t
  {
  }

  lemma {:induction false} NameEnds(s: seq<Byte>, n: nat)
    requires n < |s| && !NameChar(s[n])
    requires forall k | 0 <= k < n :: NameChar(s[k])
    ensures NameLength(s) == n
  {
    if n > 0 {
      NameEnds(s[1..], n - 1);
    }
  }

  // --- decoding ---

  /** `strncmp(flag, name, n) == 0`, where name has n characters and is followed by anything. */
  function StrncmpEqual(flag: Name, name: seq<Byte>, n: nat): bool
    requires n <= |name|
  {
    if n == 0 then true
    else
      var c := if flag == [] then 0 else flag[0]; // the terminator of a C string
      if c != name[0] then false
      else if c == 0 then true
      else StrncmpEqual(flag[1..], name[1..], n - 1)
  }

  lemma {:induction false} StrncmpIsPrefix(flag: Name, name: seq<Byte>, n: nat)
    requires n <= |name| && forall c <- name[..n] :: NameChar(c)
    ensures StrncmpEqual(flag, name, n) <==> name[..n] <= flag
  {
    if n > 0 {
      assert name[..n][0] == name[0];
      assert NameChar(name[0]);
      if flag != [] {
        assert name[..n][1..] == name[1..][..n - 1];
        StrncmpIsPrefix(flag[1..], name[1..], n - 1);
        PrefixCons(name[..n], flag);
      }
    }
  }

  /** The first entry whose name the flag begins with. */
  function FirstMatch(flag: Name, es: seq<Entry>): Option<Byte> {
    if es == [] then None
    else if es[0].name <= flag then Some(es[0].bit)
    else FirstMatch(flag, es[1..])
  }

  lemma MatchValid(flag: Name, es: seq<Entry>)
    requires ValidEntries(es)
    ensures FirstMatch(flag, es).Some? ==> ValidBit(FirstMatch(flag, es).value)
  {
    if es != [] {
      assert es[0] in es;
      MatchValid(flag, es[1..]);
    }
  }

  /** The bits of all flags that match an entry. */
  function Decode(flags: seq<Name>, es: seq<Entry>): (v: nat)
    requires ValidEntries(es)
  {
    if flags == [] then 0
    else
      var v, flag := Decode(flags[..|flags| - 1], es), flags[|flags| - 1];
      match FirstMatch(flag, es)
      case None => v
      case Some(i) => MatchValid(flag, es); With(v, i as nat)
  }

  /** The inner loop: stop at the first entry that matches. */
  method FindMatch(flag: Name, bits: seq<Byte>) returns (i: Option<Byte>)
    requires ValidTable(bits)
    ensures i == FirstMatch(flag, Entries(bits))
  {
    hide Parse, NameLength, ValidEntries, StrncmpEqual, FirstMatch;
    var p := 1;
    while bits[p] != 0
      invariant 1 <= p < |bits|
      invariant ValidEntries(Parse(bits[p..]))
      invariant FirstMatch(flag, Parse(bits[p..])) == FirstMatch(flag, Entries(bits))
      decreases |bits| - p
    {
      var q := SkipName(bits, p + 1);
      EntryAt(bits, p, q);
      MatchEntry(flag, bits, p, q);
      if StrncmpEqual(flag, bits[p + 1..], q - (p + 1)) {
        return Some(bits[p]);
      }
      p := q;
    }
    EntriesEnd(bits, p);
    NoEntryMatches(flag);
    i := None;
  }

  lemma NoEntryMatches(flag: Name)
    ensures FirstMatch(flag, []) == None
  {
  }

  lemma MatchEntry(flag: Name, bits: seq<Byte>, p: nat, q: nat)
    requires p < q <= |bits|
    requires Parse(bits[p..]) == [Entry(bits[p], bits[p + 1..q])] + Parse(bits[q..])
    requires forall c <- bits[p + 1..q] :: NameChar(c)
    ensures FirstMatch(flag, Parse(bits[p..]))
         == if StrncmpEqual(flag, bits[p + 1..], q - (p + 1)) then Some(bits[p]) else FirstMatch(flag, Parse(bits[q..]))
  {
    hide Parse;
    var n := q - (p + 1);
    assert bits[p + 1..][..n] == bits[p + 1..q];
    StrncmpIsPrefix(flag, bits[p + 1..], n);
    assert Parse(bits[p..])[1..] == Parse(bits[q..]);
  }

  /** `pop_flags_array` on the values of a table, in the order `lua_next` yields them. */
  method PopFlagsArray(flags: seq<Name>, bits: seq<Byte>) returns (v: nat)
    requires ValidTable(bits)
    ensures v == Decode(flags, Entries(bits))
    ensures v < 0x1_0000_0000
    ensures forall i: nat | 1 <= i <= 32 ::
              (v / Bit(i)) % 2 == 1 <==>
                exists k, j | 0 <= k < |flags| && 0 <= j < |Entries(bits)| :: Decodes(flags[k], Entries(bits), j, i)
  {
    v := 0;
    hide Has, Decodes;
    for k := 0 to |flags|
      invariant v == Decode(flags[..k], Entries(bits))
    {
      assert flags[..k + 1][..k] == flags[..k];
      var i := FindMatch(flags[k], bits);
      MatchValid(flags[k], Entries(bits));
      if i.Some? {
        v := With(v, i.value as nat);
      }
    }
    assert flags[..|flags|] == flags;
    DecodeBound(flags, Entries(bits));
    DecodeMeaning(flags, Entries(bits));
  }

  /** A flag stands for bit i by entry j: the first whose name it begins with. */
  predicate Decodes(flag: Name, es: seq<Entry>, j: nat, i: nat)
    requires j < |es|
  {
    es[j].bit as nat == i && es[j].name <= flag && forall h | 0 <= h < j :: !(es[h].name <= flag)
  }

  // --- round trips ---

  predicate DistinctBits(es: seq<Entry>) {
    forall j, k | 0 <= j < k < |es| :: es[j].bit != es[k].bit
  }

  /** No entry before k has a name that is a prefix of k's. */
  predicate NotShadowed(es: seq<Entry>, k: nat)
    requires k < |es|
  {
    forall j | 0 <= j < k :: !(es[j].name <= es[k].name)
  }

  predicate NoShadowing(es: seq<Entry>) {
    forall k | 0 <= k < |es| :: NotShadowed(es, k)
  }

  /** No flag of v is shadowed. */
  ghost predicate Unshadowed(v: nat, es: seq<Entry>) {
    forall k | 0 <= k < |es| && es[k].bit >= 1 && Has(v, es[k].bit as nat) :: NotShadowed(es, k)
  }

  predicate Names(es: seq<Entry>, i: nat) {
    exists j | 0 <= j < |es| :: es[j].bit as nat == i
  }

  /** r is v masked to the bits the table names. */
  ghost predicate IsMasked(r: nat, v: nat, es: seq<Entry>) {
    && r < 0x1_0000_0000
    && forall i: nat | 1 <= i <= 32 :: Has(r, i) <==> Has(v, i) && Names(es, i)
  }

  /** The keys of t in some order; `lua_next` yields each once, but more than once would do as well. */
  ghost predicate IsTraversal(t: map<Key, Name>, order: seq<Key>) {
    (forall i | 0 <= i < |order| :: order[i] in t) && forall k <- t :: k in order
  }

  function ValuesInOrder(t: map<Key, Name>, order: seq<Key>): (r: seq<Name>)
    requires forall i | 0 <= i < |order| :: order[i] in t
    ensures |r| == |order|
  {
    seq(|order|, i requires 0 <= i < |order| => t[order[i]])
  }

  lemma EncodeStepsOn(t: map<Key, Name>, v: nat, es: seq<Entry>)
    requires ValidEntries(es) && es != [] && ValidBit(es[0].bit)
    ensures EncodeFrom(t, v, es)
         == EncodeFrom(if Has(v, es[0].bit as nat) then t[Key(es[0].bit) := es[0].name] else t, v, es[1..])
  {
    hide Has;
  }

  lemma {:induction false} EncodeKeeps(t: map<Key, Name>, v: nat, es: seq<Entry>, k: Byte)
    requires ValidEntries(es) && forall j | 0 <= j < |es| :: es[j].bit != k
    ensures Key(k) in EncodeFrom(t, v, es) <==> Key(k) in t
    ensures Key(k) in t ==> EncodeFrom(t, v, es)[Key(k)] == t[Key(k)]
    decreases es
  {
    hide Has;
    if es != [] {
      var t' := if Has(v, es[0].bit as nat) then t[Key(es[0].bit) := es[0].name] else t;
      EncodeKeeps(t', v, es[1..], k);
      EncodeStepsOn(t, v, es);
    }
  }

  lemma {:induction false} EncodeAt(t: map<Key, Name>, v: nat, es: seq<Entry>, j: nat)
    requires ValidEntries(es) && DistinctBits(es) && j < |es|
    requires Key(es[j].bit) !in t && ValidBit(es[j].bit)
    ensures Key(es[j].bit) in EncodeFrom(t, v, es) <==> Has(v, es[j].bit as nat)
    ensures Key(es[j].bit) in EncodeFrom(t, v, es) ==> EncodeFrom(t, v, es)[Key(es[j].bit)] == es[j].name
    decreases es
  {
    hide Has;
    var t' := if Has(v, es[0].bit as nat) then t[Key(es[0].bit) := es[0].name] else t;
    if j == 0 {
      EncodeKeeps(t', v, es[1..], es[0].bit);
    } else {
      EncodeAt(t', v, es[1..], j - 1);
    }
    EncodeStepsOn(t, v, es);
  }

  /** The encoder's table: bit to name, for the table's bits that v has. */
  lemma EncodeMeaning(v: nat, es: seq<Entry>, k: Byte)
    requires ValidEntries(es) && DistinctBits(es)
    ensures Key(k) in Encode(v, es) <==>
              && 1 <= k <= 32 && (v / Bit(k as nat)) % 2 == 1
              && exists j | 0 <= j < |es| :: es[j].bit == k
    ensures forall j | 0 <= j < |es| && es[j].bit == k && Key(k) in Encode(v, es) ::
              Encode(v, es)[Key(k)] == es[j].name
  {
    hide EncodeFrom;
    if j :| 0 <= j < |es| && es[j].bit == k {
      assert es[j] in es;
      EncodeAt(map[], v, es, j);
    } else {
      EncodeKeeps(map[], v, es, k);
    }
  }

  lemma {:induction false} MatchFirst(flag: Name, es: seq<Entry>, k: nat)
    requires k < |es| && es[k].name <= flag && forall j | 0 <= j < k :: !(es[j].name <= flag)
    ensures FirstMatch(flag, es) == Some(es[k].bit)
  {
    if k > 0 {
      MatchFirst(flag, es[1..], k - 1);
    }
  }

  lemma {:induction false} MatchIsFirst(flag: Name, es: seq<Entry>)
    ensures FirstMatch(flag, es).None? <==> forall e <- es :: !(e.name <= flag)
    ensures FirstMatch(flag, es).Some? ==>
              exists k | 0 <= k < |es| :: es[k].bit == FirstMatch(flag, es).value && es[k].name <= flag
                && forall j | 0 <= j < k :: !(es[j].name <= flag)
  {
    if es != [] {
      assert es == [es[0]] + es[1..];
      if es[0].name <= flag {
        assert es[0].bit == FirstMatch(flag, es).value;
      } else {
        MatchIsFirst(flag, es[1..]);
        if FirstMatch(flag, es).Some? {
          var k :| 0 <= k < |es| - 1 && es[1..][k].bit == FirstMatch(flag, es).value && es[1..][k].name <= flag
            && forall j | 0 <= j < k :: !(es[1..][j].name <= flag);
          assert es[k + 1] == es[1..][k];
          forall j | 0 <= j < k + 1 ensures !(es[j].name <= flag) {
            if j > 0 {
              assert es[j] == es[1..][j - 1];
            }
          }
        }
      }
    }
  }

  /** What the inner loop finds, said without it. */
  lemma MatchDecodes(flag: Name, es: seq<Entry>, i: nat)
    ensures (exists j | 0 <= j < |es| :: Decodes(flag, es, j, i)) <==>
              FirstMatch(flag, es).Some? && FirstMatch(flag, es).value as nat == i
  {
    MatchIsFirst(flag, es);
    if j :| 0 <= j < |es| && Decodes(flag, es, j, i) {
      MatchFirst(flag, es, j);
    } else if FirstMatch(flag, es).Some? {
      var j :| 0 <= j < |es| && es[j].bit == FirstMatch(flag, es).value && es[j].name <= flag
        && forall h | 0 <= h < j :: !(es[h].name <= flag);
      assert Decodes(flag, es, j, es[j].bit as nat);
    }
  }

  predicate SomeDecodes(flags: seq<Name>, es: seq<Entry>, i: nat) {
    exists k, j | 0 <= k < |flags| && 0 <= j < |es| :: Decodes(flags[k], es, j, i)
  }

  lemma SomeDecodesLast(flags: seq<Name>, es: seq<Entry>, i: nat)
    requires flags != []
    ensures var n := |flags| - 1;
            SomeDecodes(flags, es, i) <==>
              || SomeDecodes(flags[..n], es, i)
              || exists j | 0 <= j < |es| :: Decodes(flags[n], es, j, i)
  {
    hide Decodes;
    var n := |flags| - 1;
    if k, j :| 0 <= k < |flags| && 0 <= j < |es| && Decodes(flags[k], es, j, i) {
      assert k < n ==> flags[..n][k] == flags[k];
    }
    if k, j :| 0 <= k < n && 0 <= j < |es| && Decodes(flags[..n][k], es, j, i) {
      assert flags[..n][k] == flags[k];
    }
  }

  /** A bit of the result is some flag's, and every flag's bit is in the result. */
  lemma {:induction false} DecodeBit(flags: seq<Name>, es: seq<Entry>, i: nat)
    requires ValidEntries(es) && 1 <= i
    ensures Has(Decode(flags, es), i) <==> SomeDecodes(flags, es, i)
  {
    hide Has, With, SomeDecodes, FirstMatch, Decodes;
    if flags == [] {
      NoBits(i);
      NothingDecodes(es, i);
    } else {
      var n := |flags| - 1;
      DecodeBit(flags[..n], es, i);
      SomeDecodesLast(flags, es, i);
      MatchDecodes(flags[n], es, i);
      MatchValid(flags[n], es);
      if FirstMatch(flags[n], es).Some? {
        WithBits(Decode(flags[..n], es), FirstMatch(flags[n], es).value as nat, i);
      }
    }
  }

  lemma NothingDecodes(es: seq<Entry>, i: nat)
    ensures !SomeDecodes([], es, i)
  {
  }

  lemma {:induction false} DecodeBound(flags: seq<Name>, es: seq<Entry>)
    requires ValidEntries(es)
    ensures Decode(flags, es) < 0x1_0000_0000
  {
    BitValues();
    hide Has, With, FirstMatch, Bit;
    if flags != [] {
      var n := |flags| - 1;
      DecodeBound(flags[..n], es);
      MatchValid(flags[n], es);
      if FirstMatch(flags[n], es).Some? {
        WithBound(Decode(flags[..n], es), FirstMatch(flags[n], es).value as nat, WORD_BITS);
      }
    }
  }

  /** The decoded number has exactly the bits that the flags stand for. */
  lemma DecodeMeaning(flags: seq<Name>, es: seq<Entry>)
    requires ValidEntries(es)
    ensures forall i: nat | 1 <= i <= 32 ::
              (Decode(flags, es) / Bit(i)) % 2 == 1 <==>
                exists k, j | 0 <= k < |flags| && 0 <= j < |es| :: Decodes(flags[k], es, j, i)
  {
    hide Decode, Decodes;
    forall i: nat | 1 <= i <= 32
      ensures (Decode(flags, es) / Bit(i)) % 2 == 1 <==>
                exists k, j | 0 <= k < |flags| && 0 <= j < |es| :: Decodes(flags[k], es, j, i)
    {
      DecodeBit(flags, es, i);
    }
  }

  /** An entry that is not shadowed is what its own name stands for ... */
  lemma OwnBit(es: seq<Entry>, k: nat)
    requires k < |es| && NotShadowed(es, k)
    ensures Decodes(es[k].name, es, k, es[k].bit as nat)
  {
  }

  /** ... and one that is shadowed is what no flag whatever stands for. */
  lemma NeverDecoded(flags: seq<Name>, es: seq<Entry>, k: nat)
    requires ValidEntries(es) && DistinctBits(es) && k < |es| && !NotShadowed(es, k)
    ensures ValidBit(es[k].bit) && !Has(Decode(flags, es), es[k].bit as nat)
  {
    assert es[k] in es;
    var b := es[k].bit as nat;
    DecodeBit(flags, es, b);
    hide Has, Decode;
    forall m, j | 0 <= m < |flags| && 0 <= j < |es| ensures !Decodes(flags[m], es, j, b) {
      if es[j].bit == es[k].bit {
        assert j == k;
        var h :| 0 <= h < k && es[h].name <= es[k].name;
        assert es[k].name <= flags[m] ==> es[h].name <= flags[m];
      }
    }
  }

  /** The value the encoder's table decodes to, when lua_next yields it in the given order. */
  function RoundTrip(v: nat, es: seq<Entry>, order: seq<Key>): nat
    requires ValidEntries(es) && forall i | 0 <= i < |order| :: order[i] in Encode(v, es)
  {
    Decode(ValuesInOrder(Encode(v, es), order), es)
  }

  /** A flag in the encoder's table is the name of an entry whose bit v has. */
  lemma FlagOf(v: nat, es: seq<Entry>, order: seq<Key>, m: nat) returns (j: nat)
    requires ValidEntries(es) && DistinctBits(es)
    requires IsTraversal(Encode(v, es), order) && m < |order|
    ensures j < |es| && ValidBit(es[j].bit) && Has(v, es[j].bit as nat)
    ensures ValuesInOrder(Encode(v, es), order)[m] == es[j].name
  {
    hide Encode;
    var k := order[m].bit;
    EncodeMeaning(v, es, k);
    j :| 0 <= j < |es| && es[j].bit == k;
  }

  /** Every bit of v the table names is decoded, if its name is not shadowed. */
  lemma BitSurvives(v: nat, es: seq<Entry>, order: seq<Key>, j: nat)
    requires ValidEntries(es) && DistinctBits(es) && j < |es| && NotShadowed(es, j)
    requires IsTraversal(Encode(v, es), order) && ValidBit(es[j].bit) && Has(v, es[j].bit as nat)
    ensures Has(RoundTrip(v, es, order), es[j].bit as nat)
  {
    var flags := ValuesInOrder(Encode(v, es), order);
    EncodeMeaning(v, es, es[j].bit);
    DecodeBit(flags, es, es[j].bit as nat);
    OwnBit(es, j);
    hide Encode, NotShadowed, Decode, Has, Decodes;
    assert Key(es[j].bit) in Encode(v, es);
    var m :| 0 <= m < |order| && order[m] == Key(es[j].bit);
    assert flags[m] == es[j].name;
  }

  /** No other bit is. */
  lemma OnlyOwnBits(v: nat, es: seq<Entry>, order: seq<Key>, i: nat)
    requires ValidEntries(es) && DistinctBits(es) && Unshadowed(v, es)
    requires IsTraversal(Encode(v, es), order) && i >= 1 && Has(RoundTrip(v, es, order), i)
    ensures Has(v, i) && Names(es, i)
  {
    var flags := ValuesInOrder(Encode(v, es), order);
    DecodeBit(flags, es, i);
    hide Encode, Decode, Has;
    var m, j :| 0 <= m < |flags| && 0 <= j < |es| && Decodes(flags[m], es, j, i);
    var k := FlagOf(v, es, order, m);
    assert NotShadowed(es, k);
    OwnBit(es, k);
    assert j == k;
  }

  lemma RoundTripHolds(v: nat, es: seq<Entry>, order: seq<Key>)
    requires ValidEntries(es) && DistinctBits(es) && Unshadowed(v, es)
    requires IsTraversal(Encode(v, es), order)
    ensures IsMasked(RoundTrip(v, es, order), v, es)
  {
    var r := RoundTrip(v, es, order);
    DecodeBound(ValuesInOrder(Encode(v, es), order), es);
    hide Decode, Encode, Has, NotShadowed, IsTraversal, RoundTrip;
    forall i: nat | 1 <= i <= 32 ensures Has(r, i) <==> Has(v, i) && Names(es, i) {
      if Has(r, i) {
        OnlyOwnBits(v, es, order, i);
      } else if j :| 0 <= j < |es| && es[j].bit as nat == i {
        if Has(v, i) {
          BitSurvives(v, es, order, j);
        }
      }
    }
  }

  /** A shadowed flag of v is lost. */
  lemma RoundTripFails(v: nat, es: seq<Entry>, order: seq<Key>, k: nat)
    requires ValidEntries(es) && DistinctBits(es) && IsTraversal(Encode(v, es), order)
    requires k < |es| && ValidBit(es[k].bit) && Has(v, es[k].bit as nat) && !NotShadowed(es, k)
    ensures !IsMasked(RoundTrip(v, es, order), v, es)
  {
    hide Decode, NotShadowed, Encode, Has;
    NeverDecoded(ValuesInOrder(Encode(v, es), order), es, k);
  }

  /**
   Value by value: decoding what v was encoded to gives v masked to the table's bits, in any traversal
   order, exactly when v has no flag whose name begins with an earlier entry's.
   */
  lemma RoundTripByValue(v: nat, es: seq<Entry>, order: seq<Key>)
    requires ValidEntries(es) && DistinctBits(es) && IsTraversal(Encode(v, es), order)
    ensures IsMasked(RoundTrip(v, es, order), v, es) <==> Unshadowed(v, es)
  {
    hide Encode, RoundTrip, IsMasked, Has, NotShadowed;
    if Unshadowed(v, es) {
      RoundTripHolds(v, es, order);
    } else {
      var k :| 0 <= k < |es| && es[k].bit >= 1 && Has(v, es[k].bit as nat) && !NotShadowed(es, k);
      assert es[k] in es;
      RoundTripFails(v, es, order, k);
    }
  }

  /** For a number that has only bits the table names, that is to come back as it was. */
  lemma RoundTripIsIdentity(v: nat, es: seq<Entry>, order: seq<Key>)
    requires ValidEntries(es) && DistinctBits(es) && IsTraversal(Encode(v, es), order)
    requires v < 0x1_0000_0000 && forall i: nat | 1 <= i <= 32 :: Has(v, i) ==> Names(es, i)
    ensures RoundTrip(v, es, order) == v <==> Unshadowed(v, es)
  {
    var r := RoundTrip(v, es, order);
    RoundTripByValue(v, es, order);
    BitValues();
    hide Encode, RoundTrip, Has, Unshadowed, Names;
    if IsMasked(r, v, es) {
      SameBits(r, v, WORD_BITS);
    }
  }

  /** A single bit the table names encodes to a single flag. */
  lemma SingleFlag(es: seq<Entry>, k: nat)
    requires ValidEntries(es) && DistinctBits(es) && k < |es|
    ensures ValidBit(es[k].bit)
    ensures var b := es[k].bit;
            var t := Encode(Bit(b as nat), es);
            IsTraversal(t, [Key(b)]) && Key(b) in t && t[Key(b)] == es[k].name
  {
    hide Encode;
    assert es[k] in es;
    var b := es[k].bit;
    var v := Bit(b as nat);
    forall key ensures key in Encode(v, es) <==> key == Key(b) {
      EncodeMeaning(v, es, key.bit);
      if ValidBit(key.bit) {
        SingleBit(b as nat, key.bit as nat);
      }
    }
    EncodeMeaning(v, es, b);
  }

  /** If an earlier name is a prefix of a later one, the later flag alone does not survive. */
  lemma ShadowedFlagLost(es: seq<Entry>, k: nat)
    requires ValidEntries(es) && DistinctBits(es) && k < |es| && !NotShadowed(es, k)
    ensures ValidBit(es[k].bit)
    ensures var v := Bit(es[k].bit as nat);
            IsTraversal(Encode(v, es), [Key(es[k].bit)]) && !IsMasked(RoundTrip(v, es, [Key(es[k].bit)]), v, es)
  {
    SingleFlag(es, k);
    SingleBit(es[k].bit as nat, es[k].bit as nat);
    hide Encode, RoundTrip, IsMasked, Has, NotShadowed;
    RoundTripFails(Bit(es[k].bit as nat), es, [Key(es[k].bit)], k);
  }

  /** A table round-trips every value, in every traversal order, exactly when none of its entries is shadowed. */
  lemma RoundTripExactly(es: seq<Entry>)
    requires ValidEntries(es) && DistinctBits(es)
    ensures NoShadowing(es) <==>
              forall v, order | IsTraversal(Encode(v, es), order) :: IsMasked(RoundTrip(v, es, order), v, es)
  {
    hide Encode, RoundTrip, IsMasked, NotShadowed, Has;
    if NoShadowing(es) {
      forall v, order | IsTraversal(Encode(v, es), order) ensures IsMasked(RoundTrip(v, es, order), v, es) {
        RoundTripByValue(v, es, order);
      }
    } else {
      var k :| 0 <= k < |es| && !NotShadowed(es, k);
      ShadowedFlagLost(es, k);
    }
  }
}
