/** The flag tables of libifconfig/lua_ifconfig.c as the strings they are, and which of them round-trip. */
module KernelFlags {
  import opened Wrappers
  import opened FlagTable
  import opened CTypes
  import opened Bits

  // --- tables as strings ---

  /** The entries one after the other, as adjacent string literals. */
  function Format(es: seq<Entry>): seq<Byte> {
    if es == [] then [] else [es[0].bit] + es[0].name + Format(es[1..])
  }

  /** The whole string: a numeric-format character, the entries, and the terminator. */
  function TableOf(es: seq<Entry>): (bits: seq<Byte>)
    ensures |bits| > 0
  {
    [16] + Format(es) + [0]
  }

  lemma {:induction false} FormatHasNoNul(es: seq<Entry>, i: nat)
    requires ValidEntries(es) && i < |Format(es)|
    ensures Format(es)[i] != 0
    decreases |es|
  {
    var e := es[0];
    assert e in es;
    if i == 0 {
    } else if i <= |e.name| {
      assert Format(es)[i] == e.name[i - 1];
      assert NameChar(e.name[i - 1]);
    } else {
      FormatHasNoNul(es[1..], i - 1 - |e.name|);
    }
  }

  lemma NameThenStop(name: Name, rest: seq<Byte>)
    requires (forall c <- name :: NameChar(c)) && rest != [] && !NameChar(rest[0])
    ensures NameLength(name + rest) == |name|
  {
    forall k | 0 <= k < |name| ensures NameChar((name + rest)[k]) {
      assert (name + rest)[k] == name[k];
    }
    NameEnds(name + rest, |name|);
  }

  lemma Cut(b: Byte, name: Name, rest: seq<Byte>, s: seq<Byte>)
    requires s == [b] + name + rest
    ensures s != [] && s[0] == b && s[1..] == name + rest
    ensures s[1..1 + |name|] == name && s[1 + |name|..] == rest
  {
  }

  lemma ParseStep(s: seq<Byte>, n: nat)
    requires s != [] && s[0] != 0 && n == NameLength(s[1..])
    ensures Parse(s) == [Entry(s[0], s[1..1 + n])] + Parse(s[1 + n..])
  {
    var name, rest := s[1..1 + n], s[1 + n..];
    hide NameLength, NameChar;
    assert Parse(s) == [Entry(s[0], name)] + Parse(rest);
  }

  /** One entry is read back, whatever follows its name. */
  lemma ParseFirst(e: Entry, rest: seq<Byte>, s: seq<Byte>)
    requires s == [e.bit] + e.name + rest
    requires ValidBit(e.bit) && (forall c <- e.name :: NameChar(c)) && rest != [] && !NameChar(rest[0])
    ensures Parse(s) == [e] + Parse(rest)
  {
    NameThenStop(e.name, rest);
    hide NameLength, NameChar, Parse;
    Cut(e.bit, e.name, rest, s);
    ParseStep(s, |e.name|);
  }

  /** Reading a table back gives the entries it was written from. */
  lemma {:induction false} ParseFormat(es: seq<Entry>)
    requires ValidEntries(es)
    ensures Parse(Format(es) + [0]) == es
    decreases |es|
  {
    if es == [] {
      EntriesEnd([0], 0);
      assert [0][0..] == [0] && Format(es) + [0] == [0];
    } else {
      var e, rest := es[0], Format(es[1..]) + [0];
      assert e in es && ValidEntries(es[1..]);
      FormatFirst(es, rest);
      hide Parse, ValidEntries, NameChar, Format;
      RestStops(es[1..]);
      ParseFirst(e, rest, Format(es) + [0]);
      ParseFormat(es[1..]);
      assert es == [e] + es[1..];
    }
  }

  lemma FormatFirst(es: seq<Entry>, rest: seq<Byte>)
    requires es != [] && rest == Format(es[1..]) + [0]
    ensures Format(es) + [0] == [es[0].bit] + es[0].name + rest
  {
  }

  /** After a name comes a bit number or the terminator, neither of which a name can contain. */
  lemma RestStops(es: seq<Entry>)
    requires ValidEntries(es)
    ensures !NameChar((Format(es) + [0])[0])
  {
    if es != [] {
      assert es[0] in es && ValidBit(es[0].bit);
    }
  }

  /** The string: the numeric base 16, then each bit number before its name, then the terminator. */
  lemma TableWritten(es: seq<Entry>)
    ensures TableOf(es) == [16] + Format(es) + [0]
    ensures es == [] ==> Format(es) == []
    ensures es != [] ==> Format(es) == [es[0].bit] + es[0].name + Format(es[1..])
  {
  }

  lemma TableRead(es: seq<Entry>)
    requires forall e <- es :: 1 <= e.bit <= 32 && forall c <- e.name :: 32 < c < 128
    ensures Entries(TableOf(es)) == es
    ensures es != [] ==> ValidTable(TableOf(es))
  {
    var bits := TableOf(es);
    assert bits[1..] == Format(es) + [0];
    ParseFormat(es);
    hide Parse, Format, TableOf;
    forall i | 0 <= i < |bits| - 1 ensures bits[i] != 0 {
      if i > 0 {
        FormatHasNoNul(es, i - 1);
      }
    }
    if es != [] {
      FormatNotEmpty(es);
    }
  }

  lemma FormatNotEmpty(es: seq<Entry>)
    requires es != []
    ensures Format(es) != []
  {
  }

  // --- stretches of a table ---

  /** Part of a table: bit numbers above lo and up to hi. */
  ghost predicate Stretch(es: seq<Entry>, lo: Byte, hi: Byte) {
    ValidEntries(es) && DistinctBits(es) && forall e <- es :: lo < e.bit <= hi
  }

  predicate NameOk(e: Entry) {
    forall i | 0 <= i < |e.name| :: NameChar(e.name[i])
  }

  /** Entries written out in ascending order. */
  lemma Written(es: seq<Entry>, lo: Byte, hi: Byte)
    requires es != [] && lo < es[0].bit && es[|es| - 1].bit <= hi <= 32
    requires forall k | 0 < k < |es| :: es[k - 1].bit < es[k].bit
    requires forall k | 0 <= k < |es| :: NameOk(es[k])
    ensures Stretch(es, lo, hi)
  {
    forall j, k | 0 <= j <= k < |es| ensures es[j].bit <= es[k].bit && (j < k ==> es[j].bit < es[k].bit) {
      AscendsBy(es, j, k);
    }
  }

  lemma {:induction false} AscendsBy(es: seq<Entry>, j: nat, k: nat)
    requires j <= k < |es| && forall i | 0 < i < |es| :: es[i - 1].bit < es[i].bit
    ensures es[j].bit <= es[k].bit && (j < k ==> es[j].bit < es[k].bit)
    decreases k
  {
    if j < k {
      AscendsBy(es, j, k - 1);
    }
  }

  lemma Joined(a: seq<Entry>, b: seq<Entry>, lo: Byte, mid: Byte, hi: Byte)
    requires Stretch(a, lo, mid) && Stretch(b, mid, hi) && lo <= mid <= hi
    ensures Stretch(a + b, lo, hi)
  {
    var es := a + b;
    forall j, k | 0 <= j < k < |es| ensures es[j].bit != es[k].bit {
      assert j < |a| ==> es[j] in a;
      assert k >= |a| ==> es[k] in b;
    }
  }

  // --- telling names apart ---

  predicate Is(n: Name, p: nat, c: Byte) {
    p < |n| && n[p] == c
  }

  /** The place of an entry, counting from a number for each table; the two shadowed ones have their shadow's. */
  function Place(g: int): int {
    if g == 20 || g == 21 then g - 20 else g
  }

  /** The code function, which looks at as few characters as it can, knows each name's place. */
  ghost predicate Coded(code: Name -> int, es: seq<Entry>, base: int) {
    forall i | 0 <= i < |es| :: code(es[i].name) == Place(base + i)
  }

  lemma CodesJoined(code: Name -> int, a: seq<Entry>, b: seq<Entry>, base: int)
    requires Coded(code, a, base) && Coded(code, b, base + |a|)
    ensures Coded(code, a + b, base)
  {
    forall i | 0 <= i < |a + b| ensures code((a + b)[i].name) == Place(base + i) {
      assert i >= |a| ==> (a + b)[i] == b[i - |a|];
    }
  }

  /** A code that a name's prefixes share tells all places apart. */
  lemma PlacesTellApart(code: Name -> int, es: seq<Entry>, base: nat, k: nat)
    requires Coded(code, es, base) && k < |es| && base + k !in {20, 21}
    requires forall a, b | a <= b && code(a) != -1 :: code(b) == code(a)
    ensures NotShadowed(es, k)
  {
    forall j | 0 <= j < k ensures !(es[j].name <= es[k].name) {
      assert code(es[j].name) == Place(base + j) && code(es[k].name) == Place(base + k);
    }
  }

  function CapCode(n: Name): int {
    if Is(n, 0, 82) then 0 // RXCSUM
    else if Is(n, 0, 84) && Is(n, 1, 88) && Is(n, 2, 67) then 1 // TXCSUM
    else if Is(n, 0, 78) && Is(n, 1, 69) && Is(n, 3, 67) then 2 // NETCONS
    else if Is(n, 0, 86) && Is(n, 5, 77) then 3 // VLAN_MTU
    else if Is(n, 0, 86) && Is(n, 5, 72) && Is(n, 7, 84) && Is(n, 8, 65) then 4 // VLAN_HWTAGGING
    else if Is(n, 0, 74) then 5 // JUMBO_MTU
    else if Is(n, 0, 80) then 6 // POLLING
    else if Is(n, 0, 86) && Is(n, 5, 72) && Is(n, 7, 67) then 7 // VLAN_HWCSUM
    else if Is(n, 0, 84) && Is(n, 1, 83) && Is(n, 3, 52) then 8 // TSO4
    else if Is(n, 0, 84) && Is(n, 1, 83) && Is(n, 3, 54) then 9 // TSO6
    else if Is(n, 0, 76) && Is(n, 1, 82) then 10 // LRO
    else if Is(n, 0, 87) && Is(n, 4, 85) then 11 // WOL_UCAST
    else if Is(n, 0, 87) && Is(n, 4, 77) && Is(n, 5, 67) then 12 // WOL_MCAST
    else if Is(n, 0, 87) && Is(n, 4, 77) && Is(n, 5, 65) then 13 // WOL_MAGIC
    else if Is(n, 0, 84) && Is(n, 1, 79) && Is(n, 3, 52) then 14 // TOE4
    else if Is(n, 0, 84) && Is(n, 1, 79) && Is(n, 3, 54) then 15 // TOE6
    else if Is(n, 0, 86) && Is(n, 5, 72) && Is(n, 7, 70) then 16 // VLAN_HWFILTER
    else if Is(n, 0, 86) && Is(n, 5, 72) && Is(n, 7, 84) && Is(n, 8, 83) then 17 // VLAN_HWTSO
    else if Is(n, 0, 76) && Is(n, 1, 73) then 18 // LINKSTATE
    else if Is(n, 0, 78) && Is(n, 1, 69) && Is(n, 3, 77) then 19 // NETMAP
    else if Is(n, 0, 84) && Is(n, 1, 88) && Is(n, 2, 82) then 22 // TXRTLMT
    else if Is(n, 0, 72) then 23 // HWRXTSTMP
    else if Is(n, 0, 78) && Is(n, 1, 79) then 24 // NOMAP
    else if Is(n, 0, 84) && Is(n, 1, 88) && Is(n, 2, 84) && Is(n, 5, 52) then 25 // TXTLS4
    else if Is(n, 0, 84) && Is(n, 1, 88) && Is(n, 2, 84) && Is(n, 5, 54) then 26 // TXTLS6
    else -1
  }

  lemma CapCodeOfPrefix(a: Name, b: Name)
    requires a <= b && CapCode(a) != -1
    ensures CapCode(b) == CapCode(a)
  {
  }

  function IffCode(n: Name): int {
    if Is(n, 0, 85) then 100 // UP
    else if Is(n, 0, 66) then 101 // BROADCAST
    else if Is(n, 0, 68) then 102 // DEBUG
    else if Is(n, 0, 76) && Is(n, 1, 79) then 103 // LOOPBACK
    else if Is(n, 0, 80) && Is(n, 1, 79) then 104 // POINTOPOINT
    else if Is(n, 0, 82) then 105 // RUNNING
    else if Is(n, 0, 78) then 106 // NOARP
    else if Is(n, 0, 80) && Is(n, 1, 82) then 107 // PROMISC
    else if Is(n, 0, 65) then 108 // ALLMULTI
    else if Is(n, 0, 79) then 109 // OACTIVE
    else if Is(n, 0, 83) && Is(n, 1, 73) then 110 // SIMPLEX
    else if Is(n, 0, 76) && Is(n, 1, 73) && Is(n, 4, 48) then 111 // LINK0
    else if Is(n, 0, 76) && Is(n, 1, 73) && Is(n, 4, 49) then 112 // LINK1
    else if Is(n, 0, 76) && Is(n, 1, 73) && Is(n, 4, 50) then 113 // LINK2
    else if Is(n, 0, 77) && Is(n, 1, 85) then 114 // MULTICAST
    else if Is(n, 0, 80) && Is(n, 1, 80) then 115 // PPROMISC
    else if Is(n, 0, 77) && Is(n, 1, 79) then 116 // MONITOR
    else if Is(n, 0, 83) && Is(n, 1, 84) then 117 // STATICARP
    else -1
  }

  lemma IffCodeOfPrefix(a: Name, b: Name)
    requires a <= b && IffCode(a) != -1
    ensures IffCode(b) == IffCode(a)
  {
  }

  function In6Code(n: Name): int {
    if Is(n, 0, 97) && Is(n, 1, 110) then 200 // anycast
    else if Is(n, 0, 116) && Is(n, 2, 110) then 201 // tenative
    else if Is(n, 0, 100) && Is(n, 1, 117) then 202 // duplicated
    else if Is(n, 0, 100) && Is(n, 1, 101) && Is(n, 2, 116) then 203 // detached
    else if Is(n, 0, 100) && Is(n, 1, 101) && Is(n, 2, 112) then 204 // deprecated
    else if Is(n, 0, 110) then 205 // nodad
    else if Is(n, 0, 97) && Is(n, 1, 117) then 206 // autoconf
    else if Is(n, 0, 116) && Is(n, 2, 109) then 207 // temporary
    else if Is(n, 0, 112) then 208 // prefer_source
    else -1
  }

  lemma In6CodeOfPrefix(a: Name, b: Name)
    requires a <= b && In6Code(a) != -1
    ensures In6Code(b) == In6Code(a)
  {
  }

  // --- the tables ---

  const CAPS_1: seq<Entry> := [ // RXCSUM TXCSUM NETCONS
    Entry(1, [82, 88, 67, 83, 85, 77]),
    Entry(2, [84, 88, 67, 83, 85, 77]),
    Entry(3, [78, 69, 84, 67, 79, 78, 83])
  ]
  const CAPS_2: seq<Entry> := [ // VLAN_MTU VLAN_HWTAGGING
    Entry(4, [86, 76, 65, 78, 95, 77, 84, 85]),
    Entry(5, [86, 76, 65, 78, 95, 72, 87, 84, 65, 71, 71, 73, 78, 71])
  ]
  const CAPS_3: seq<Entry> := [ // JUMBO_MTU POLLING
    Entry(6, [74, 85, 77, 66, 79, 95, 77, 84, 85]),
    Entry(7, [80, 79, 76, 76, 73, 78, 71])
  ]
  const CAPS_4: seq<Entry> := [ // VLAN_HWCSUM TSO4 TSO6 LRO
    Entry(8, [86, 76, 65, 78, 95, 72, 87, 67, 83, 85, 77]),
    Entry(9, [84, 83, 79, 52]),
    Entry(10, [84, 83, 79, 54]),
    Entry(11, [76, 82, 79])
  ]
  const CAPS_5: seq<Entry> := [ // WOL_UCAST WOL_MCAST
    Entry(12, [87, 79, 76, 95, 85, 67, 65, 83, 84]),
    Entry(13, [87, 79, 76, 95, 77, 67, 65, 83, 84])
  ]
  const CAPS_6: seq<Entry> := [ // WOL_MAGIC TOE4 TOE6
    Entry(14, [87, 79, 76, 95, 77, 65, 71, 73, 67]),
    Entry(15, [84, 79, 69, 52]),
    Entry(16, [84, 79, 69, 54])
  ]
  const CAPS_7: seq<Entry> := [ // VLAN_HWFILTER VLAN_HWTSO
    Entry(17, [86, 76, 65, 78, 95, 72, 87, 70, 73, 76, 84, 69, 82]),
    Entry(19, [86, 76, 65, 78, 95, 72, 87, 84, 83, 79])
  ]
  const CAPS_8: seq<Entry> := [ // LINKSTATE NETMAP
    Entry(20, [76, 73, 78, 75, 83, 84, 65, 84, 69]),
    Entry(21, [78, 69, 84, 77, 65, 80])
  ]
  const CAPS_9: seq<Entry> := [ // RXCSUM_IPV6 TXCSUM_IPV6
    Entry(22, [82, 88, 67, 83, 85, 77, 95, 73, 80, 86, 54]),
    Entry(23, [84, 88, 67, 83, 85, 77, 95, 73, 80, 86, 54])
  ]
  const CAPS_10: seq<Entry> := [ // TXRTLMT HWRXTSTMP NOMAP
    Entry(25, [84, 88, 82, 84, 76, 77, 84]),
    Entry(26, [72, 87, 82, 88, 84, 83, 84, 77, 80]),
    Entry(27, [78, 79, 77, 65, 80])
  ]
  const CAPS_11: seq<Entry> := [ // TXTLS4 TXTLS6
    Entry(28, [84, 88, 84, 76, 83, 52]),
    Entry(29, [84, 88, 84, 76, 83, 54])
  ]

  const CAPS_LOW := CAPS_1 + CAPS_2 + CAPS_3 + CAPS_4 + CAPS_5
  const CAPS_HIGH := CAPS_6 + CAPS_7 + CAPS_8 + CAPS_9 + CAPS_10 + CAPS_11

  const IFCAPBITS := CAPS_LOW + CAPS_HIGH

  const IFF_1: seq<Entry> := [ // UP BROADCAST DEBUG LOOPBACK
    Entry(1, [85, 80]),
    Entry(2, [66, 82, 79, 65, 68, 67, 65, 83, 84]),
    Entry(3, [68, 69, 66, 85, 71]),
    Entry(4, [76, 79, 79, 80, 66, 65, 67, 75])
  ]
  const IFF_2: seq<Entry> := [ // POINTOPOINT RUNNING NOARP
    Entry(5, [80, 79, 73, 78, 84, 79, 80, 79, 73, 78, 84]),
    Entry(7, [82, 85, 78, 78, 73, 78, 71]),
    Entry(8, [78, 79, 65, 82, 80])
  ]
  const IFF_3: seq<Entry> := [ // PROMISC ALLMULTI OACTIVE
    Entry(9, [80, 82, 79, 77, 73, 83, 67]),
    Entry(10, [65, 76, 76, 77, 85, 76, 84, 73]),
    Entry(11, [79, 65, 67, 84, 73, 86, 69])
  ]
  const IFF_4: seq<Entry> := [ // SIMPLEX LINK0 LINK1 LINK2
    Entry(12, [83, 73, 77, 80, 76, 69, 88]),
    Entry(13, [76, 73, 78, 75, 48]),
    Entry(14, [76, 73, 78, 75, 49]),
    Entry(15, [76, 73, 78, 75, 50])
  ]
  const IFF_5: seq<Entry> := [ // MULTICAST PPROMISC MONITOR
    Entry(16, [77, 85, 76, 84, 73, 67, 65, 83, 84]),
    Entry(18, [80, 80, 82, 79, 77, 73, 83, 67]),
    Entry(19, [77, 79, 78, 73, 84, 79, 82])
  ]
  const IFF_6: seq<Entry> := [ // STATICARP
    Entry(20, [83, 84, 65, 84, 73, 67, 65, 82, 80])
  ]

  const IFFBITS := IFF_1 + IFF_2 + IFF_3 + IFF_4 + IFF_5 + IFF_6

  const IN6_1: seq<Entry> := [ // anycast tenative
    Entry(1, [97, 110, 121, 99, 97, 115, 116]),
    Entry(2, [116, 101, 110, 97, 116, 105, 118, 101])
  ]
  const IN6_2: seq<Entry> := [ // duplicated detached
    Entry(3, [100, 117, 112, 108, 105, 99, 97, 116, 101, 100]),
    Entry(4, [100, 101, 116, 97, 99, 104, 101, 100])
  ]
  const IN6_3: seq<Entry> := [ // deprecated nodad autoconf
    Entry(5, [100, 101, 112, 114, 101, 99, 97, 116, 101, 100]),
    Entry(7, [110, 111, 100, 97, 100]),
    Entry(8, [97, 117, 116, 111, 99, 111, 110, 102])
  ]
  const IN6_4: seq<Entry> := [ // temporary prefer_source
    Entry(9, [116, 101, 109, 112, 111, 114, 97, 114, 121]),
    Entry(10, [112, 114, 101, 102, 101, 114, 95, 115, 111, 117, 114, 99, 101])
  ]

  const IN6BITS := IN6_1 + IN6_2 + IN6_3 + IN6_4

  const LAGGHASHBITS: seq<Entry> := [ // l2 l3 l4
    Entry(1, [108, 50]),
    Entry(2, [108, 51]),
    Entry(3, [108, 52])
  ]

  const ND6_1: seq<Entry> := [ // nud accept_rtadv
    Entry(1, [110, 117, 100]),
    Entry(2, [97, 99, 99, 101, 112, 116, 95, 114, 116, 97, 100, 118])
  ]
  const ND6_2: seq<Entry> := [ // prefer_source ifdisabled
    Entry(3, [112, 114, 101, 102, 101, 114, 95, 115, 111, 117, 114, 99, 101]),
    Entry(4, [105, 102, 100, 105, 115, 97, 98, 108, 101, 100])
  ]
  const ND6_3: seq<Entry> := [ // dont_set_ifroute
    Entry(5, [100, 111, 110, 116, 95, 115, 101, 116, 95, 105, 102, 114, 111, 117, 116, 101])
  ]
  const ND6_4: seq<Entry> := [ // auto_linklocal no_radr
    Entry(6, [97, 117, 116, 111, 95, 108, 105, 110, 107, 108, 111, 99, 97, 108]),
    Entry(7, [110, 111, 95, 114, 97, 100, 114])
  ]
  const ND6_5: seq<Entry> := [ // no_prefer_iface no_dad
    Entry(8, [110, 111, 95, 112, 114, 101, 102, 101, 114, 95, 105, 102, 97, 99, 101]),
    Entry(9, [110, 111, 95, 100, 97, 100])
  ]
  const ND6_6: seq<Entry> := [ // ipv6_only ipv6_only
    Entry(10, [105, 112, 118, 54, 95, 111, 110, 108, 121]),
    Entry(11, [105, 112, 118, 54, 95, 111, 110, 108, 121])
  ]

  const ND6BITS := ND6_1 + ND6_2 + ND6_3 + ND6_4 + ND6_5 + ND6_6

  lemma PartCAPS1()
    ensures Stretch(CAPS_1, 0, 3) && |CAPS_1| == 3
    ensures Coded(CapCode, CAPS_1, 0)
  {
    hide Stretch;
    assert NameOk(CAPS_1[0]) && NameOk(CAPS_1[1]) && NameOk(CAPS_1[2]);
    Written(CAPS_1, 0, 3);
  }

  lemma PartCAPS2()
    ensures Stretch(CAPS_2, 3, 5) && |CAPS_2| == 2
    ensures Coded(CapCode, CAPS_2, 3)
  {
    hide Stretch;
    assert NameOk(CAPS_2[0]) && NameOk(CAPS_2[1]);
    Written(CAPS_2, 3, 5);
  }

  lemma PartCAPS3()
    ensures Stretch(CAPS_3, 5, 7) && |CAPS_3| == 2
    ensures Coded(CapCode, CAPS_3, 5)
  {
    hide Stretch;
    assert NameOk(CAPS_3[0]) && NameOk(CAPS_3[1]);
    Written(CAPS_3, 5, 7);
  }

  lemma PartCAPS4()
    ensures Stretch(CAPS_4, 7, 11) && |CAPS_4| == 4
    ensures Coded(CapCode, CAPS_4, 7)
  {
    hide Stretch;
    assert NameOk(CAPS_4[0]) && NameOk(CAPS_4[1]) && NameOk(CAPS_4[2]) && NameOk(CAPS_4[3]);
    Written(CAPS_4, 7, 11);
  }

  lemma PartCAPS5()
    ensures Stretch(CAPS_5, 11, 13) && |CAPS_5| == 2
    ensures Coded(CapCode, CAPS_5, 11)
  {
    hide Stretch;
    assert NameOk(CAPS_5[0]) && NameOk(CAPS_5[1]);
    Written(CAPS_5, 11, 13);
  }

  lemma PartCAPS6()
    ensures Stretch(CAPS_6, 13, 16) && |CAPS_6| == 3
    ensures Coded(CapCode, CAPS_6, 13)
  {
    hide Stretch;
    assert NameOk(CAPS_6[0]) && NameOk(CAPS_6[1]) && NameOk(CAPS_6[2]);
    Written(CAPS_6, 13, 16);
  }

  lemma PartCAPS7()
    ensures Stretch(CAPS_7, 16, 19) && |CAPS_7| == 2
    ensures Coded(CapCode, CAPS_7, 16)
  {
    hide Stretch;
    assert NameOk(CAPS_7[0]) && NameOk(CAPS_7[1]);
    Written(CAPS_7, 16, 19);
  }

  lemma PartCAPS8()
    ensures Stretch(CAPS_8, 19, 21) && |CAPS_8| == 2
    ensures Coded(CapCode, CAPS_8, 18)
  {
    hide Stretch;
    assert NameOk(CAPS_8[0]) && NameOk(CAPS_8[1]);
    Written(CAPS_8, 19, 21);
  }

  lemma PartCAPS9()
    ensures Stretch(CAPS_9, 21, 23) && |CAPS_9| == 2
    ensures Coded(CapCode, CAPS_9, 20)
  {
    hide Stretch;
    assert NameOk(CAPS_9[0]) && NameOk(CAPS_9[1]);
    Written(CAPS_9, 21, 23);
  }

  lemma PartCAPS10()
    ensures Stretch(CAPS_10, 23, 27) && |CAPS_10| == 3
    ensures Coded(CapCode, CAPS_10, 22)
  {
    hide Stretch;
    assert NameOk(CAPS_10[0]) && NameOk(CAPS_10[1]) && NameOk(CAPS_10[2]);
    Written(CAPS_10, 23, 27);
  }

  lemma PartCAPS11()
    ensures Stretch(CAPS_11, 27, 29) && |CAPS_11| == 2
    ensures Coded(CapCode, CAPS_11, 25)
  {
    hide Stretch;
    assert NameOk(CAPS_11[0]) && NameOk(CAPS_11[1]);
    Written(CAPS_11, 27, 29);
  }

  lemma ReadCAPS_LOW()
    ensures Stretch(CAPS_LOW, 0, 13) && |CAPS_LOW| == 13
    ensures Coded(CapCode, CAPS_LOW, 0)
  {
    hide Stretch, Coded, CAPS_1, CAPS_2, CAPS_3, CAPS_4, CAPS_5;
    PartCAPS1();
    PartCAPS2();
    PartCAPS3();
    PartCAPS4();
    PartCAPS5();
    Joined(CAPS_1, CAPS_2, 0, 3, 5);
    CodesJoined(CapCode, CAPS_1, CAPS_2, 0);
    Joined(CAPS_1 + CAPS_2, CAPS_3, 0, 5, 7);
    CodesJoined(CapCode, CAPS_1 + CAPS_2, CAPS_3, 0);
    Joined(CAPS_1 + CAPS_2 + CAPS_3, CAPS_4, 0, 7, 11);
    CodesJoined(CapCode, CAPS_1 + CAPS_2 + CAPS_3, CAPS_4, 0);
    Joined(CAPS_1 + CAPS_2 + CAPS_3 + CAPS_4, CAPS_5, 0, 11, 13);
    CodesJoined(CapCode, CAPS_1 + CAPS_2 + CAPS_3 + CAPS_4, CAPS_5, 0);
  }

  lemma ReadCAPS_HIGH()
    ensures Stretch(CAPS_HIGH, 13, 29) && |CAPS_HIGH| == 14
    ensures Coded(CapCode, CAPS_HIGH, 13)
  {
    hide Stretch, Coded, CAPS_6, CAPS_7, CAPS_8, CAPS_9, CAPS_10, CAPS_11;
    PartCAPS6();
    PartCAPS7();
    PartCAPS8();
    PartCAPS9();
    PartCAPS10();
    PartCAPS11();
    Joined(CAPS_6, CAPS_7, 13, 16, 19);
    CodesJoined(CapCode, CAPS_6, CAPS_7, 13);
    Joined(CAPS_6 + CAPS_7, CAPS_8, 13, 19, 21);
    CodesJoined(CapCode, CAPS_6 + CAPS_7, CAPS_8, 13);
    Joined(CAPS_6 + CAPS_7 + CAPS_8, CAPS_9, 13, 21, 23);
    CodesJoined(CapCode, CAPS_6 + CAPS_7 + CAPS_8, CAPS_9, 13);
    Joined(CAPS_6 + CAPS_7 + CAPS_8 + CAPS_9, CAPS_10, 13, 23, 27);
    CodesJoined(CapCode, CAPS_6 + CAPS_7 + CAPS_8 + CAPS_9, CAPS_10, 13);
    Joined(CAPS_6 + CAPS_7 + CAPS_8 + CAPS_9 + CAPS_10, CAPS_11, 13, 27, 29);
    CodesJoined(CapCode, CAPS_6 + CAPS_7 + CAPS_8 + CAPS_9 + CAPS_10, CAPS_11, 13);
  }

  lemma ReadIFCAPBITS()
    ensures Stretch(IFCAPBITS, 0, 29) && |IFCAPBITS| == 27
    ensures Coded(CapCode, IFCAPBITS, 0)
  {
    hide Stretch, Coded, CAPS_LOW, CAPS_HIGH;
    ReadCAPS_LOW();
    ReadCAPS_HIGH();
    Joined(CAPS_LOW, CAPS_HIGH, 0, 13, 29);
    CodesJoined(CapCode, CAPS_LOW, CAPS_HIGH, 0);
  }

  lemma PartIFF1()
    ensures Stretch(IFF_1, 0, 4) && |IFF_1| == 4
    ensures Coded(IffCode, IFF_1, 100)
  {
    hide Stretch;
    assert NameOk(IFF_1[0]) && NameOk(IFF_1[1]) && NameOk(IFF_1[2]) && NameOk(IFF_1[3]);
    Written(IFF_1, 0, 4);
  }

  lemma PartIFF2()
    ensures Stretch(IFF_2, 4, 8) && |IFF_2| == 3
    ensures Coded(IffCode, IFF_2, 104)
  {
    hide Stretch;
    assert NameOk(IFF_2[0]) && NameOk(IFF_2[1]) && NameOk(IFF_2[2]);
    Written(IFF_2, 4, 8);
  }

  lemma PartIFF3()
    ensures Stretch(IFF_3, 8, 11) && |IFF_3| == 3
    ensures Coded(IffCode, IFF_3, 107)
  {
    hide Stretch;
    assert NameOk(IFF_3[0]) && NameOk(IFF_3[1]) && NameOk(IFF_3[2]);
    Written(IFF_3, 8, 11);
  }

  lemma PartIFF4()
    ensures Stretch(IFF_4, 11, 15) && |IFF_4| == 4
    ensures Coded(IffCode, IFF_4, 110)
  {
    hide Stretch;
    assert NameOk(IFF_4[0]) && NameOk(IFF_4[1]) && NameOk(IFF_4[2]) && NameOk(IFF_4[3]);
    Written(IFF_4, 11, 15);
  }

  lemma PartIFF5()
    ensures Stretch(IFF_5, 15, 19) && |IFF_5| == 3
    ensures Coded(IffCode, IFF_5, 114)
  {
    hide Stretch;
    assert NameOk(IFF_5[0]) && NameOk(IFF_5[1]) && NameOk(IFF_5[2]);
    Written(IFF_5, 15, 19);
  }

  lemma PartIFF6()
    ensures Stretch(IFF_6, 19, 20) && |IFF_6| == 1
    ensures Coded(IffCode, IFF_6, 117)
  {
    hide Stretch;
    assert NameOk(IFF_6[0]);
    Written(IFF_6, 19, 20);
  }

  lemma ReadIFFBITS()
    ensures Stretch(IFFBITS, 0, 20) && |IFFBITS| == 18
    ensures Coded(IffCode, IFFBITS, 100)
  {
    hide Stretch, Coded, IFF_1, IFF_2, IFF_3, IFF_4, IFF_5, IFF_6;
    PartIFF1();
    PartIFF2();
    PartIFF3();
    PartIFF4();
    PartIFF5();
    PartIFF6();
    Joined(IFF_1, IFF_2, 0, 4, 8);
    CodesJoined(IffCode, IFF_1, IFF_2, 100);
    Joined(IFF_1 + IFF_2, IFF_3, 0, 8, 11);
    CodesJoined(IffCode, IFF_1 + IFF_2, IFF_3, 100);
    Joined(IFF_1 + IFF_2 + IFF_3, IFF_4, 0, 11, 15);
    CodesJoined(IffCode, IFF_1 + IFF_2 + IFF_3, IFF_4, 100);
    Joined(IFF_1 + IFF_2 + IFF_3 + IFF_4, IFF_5, 0, 15, 19);
    CodesJoined(IffCode, IFF_1 + IFF_2 + IFF_3 + IFF_4, IFF_5, 100);
    Joined(IFF_1 + IFF_2 + IFF_3 + IFF_4 + IFF_5, IFF_6, 0, 19, 20);
    CodesJoined(IffCode, IFF_1 + IFF_2 + IFF_3 + IFF_4 + IFF_5, IFF_6, 100);
  }

  lemma PartIN61()
    ensures Stretch(IN6_1, 0, 2) && |IN6_1| == 2
    ensures Coded(In6Code, IN6_1, 200)
  {
    hide Stretch;
    assert NameOk(IN6_1[0]) && NameOk(IN6_1[1]);
    Written(IN6_1, 0, 2);
  }

  lemma PartIN62()
    ensures Stretch(IN6_2, 2, 4) && |IN6_2| == 2
    ensures Coded(In6Code, IN6_2, 202)
  {
    hide Stretch;
    assert NameOk(IN6_2[0]) && NameOk(IN6_2[1]);
    Written(IN6_2, 2, 4);
  }

  lemma PartIN63()
    ensures Stretch(IN6_3, 4, 8) && |IN6_3| == 3
    ensures Coded(In6Code, IN6_3, 204)
  {
    hide Stretch;
    assert NameOk(IN6_3[0]) && NameOk(IN6_3[1]) && NameOk(IN6_3[2]);
    Written(IN6_3, 4, 8);
  }

  lemma PartIN64()
    ensures Stretch(IN6_4, 8, 10) && |IN6_4| == 2
    ensures Coded(In6Code, IN6_4, 207)
  {
    hide Stretch;
    assert NameOk(IN6_4[0]) && NameOk(IN6_4[1]);
    Written(IN6_4, 8, 10);
  }

  lemma ReadIN6BITS()
    ensures Stretch(IN6BITS, 0, 10) && |IN6BITS| == 9
    ensures Coded(In6Code, IN6BITS, 200)
  {
    hide Stretch, Coded, IN6_1, IN6_2, IN6_3, IN6_4;
    PartIN61();
    PartIN62();
    PartIN63();
    PartIN64();
    Joined(IN6_1, IN6_2, 0, 2, 4);
    CodesJoined(In6Code, IN6_1, IN6_2, 200);
    Joined(IN6_1 + IN6_2, IN6_3, 0, 4, 8);
    CodesJoined(In6Code, IN6_1 + IN6_2, IN6_3, 200);
    Joined(IN6_1 + IN6_2 + IN6_3, IN6_4, 0, 8, 10);
    CodesJoined(In6Code, IN6_1 + IN6_2 + IN6_3, IN6_4, 200);
  }

  lemma ReadLAGGHASHBITS()
    ensures Stretch(LAGGHASHBITS, 0, 3)
  {
    hide Stretch;
    assert NameOk(LAGGHASHBITS[0]) && NameOk(LAGGHASHBITS[1]) && NameOk(LAGGHASHBITS[2]);
    Written(LAGGHASHBITS, 0, 3);
  }

  lemma PartND61()
    ensures Stretch(ND6_1, 0, 2)
  {
    hide Stretch;
    assert NameOk(ND6_1[0]) && NameOk(ND6_1[1]);
    Written(ND6_1, 0, 2);
  }

  lemma PartND62()
    ensures Stretch(ND6_2, 2, 4)
  {
    hide Stretch;
    assert NameOk(ND6_2[0]) && NameOk(ND6_2[1]);
    Written(ND6_2, 2, 4);
  }

  lemma PartND63()
    ensures Stretch(ND6_3, 4, 5)
  {
    hide Stretch;
    assert NameOk(ND6_3[0]);
    Written(ND6_3, 4, 5);
  }

  lemma PartND64()
    ensures Stretch(ND6_4, 5, 7)
  {
    hide Stretch;
    assert NameOk(ND6_4[0]) && NameOk(ND6_4[1]);
    Written(ND6_4, 5, 7);
  }

  lemma PartND65()
    ensures Stretch(ND6_5, 7, 9)
  {
    hide Stretch;
    assert NameOk(ND6_5[0]) && NameOk(ND6_5[1]);
    Written(ND6_5, 7, 9);
  }

  lemma PartND66()
    ensures Stretch(ND6_6, 9, 11)
  {
    hide Stretch;
    assert NameOk(ND6_6[0]) && NameOk(ND6_6[1]);
    Written(ND6_6, 9, 11);
  }

  lemma ReadND6BITS()
    ensures Stretch(ND6BITS, 0, 11)
  {
    hide Stretch, Coded, ND6_1, ND6_2, ND6_3, ND6_4, ND6_5, ND6_6;
    PartND61();
    PartND62();
    PartND63();
    PartND64();
    PartND65();
    PartND66();
    Joined(ND6_1, ND6_2, 0, 2, 4);
    Joined(ND6_1 + ND6_2, ND6_3, 0, 4, 5);
    Joined(ND6_1 + ND6_2 + ND6_3, ND6_4, 0, 5, 7);
    Joined(ND6_1 + ND6_2 + ND6_3 + ND6_4, ND6_5, 0, 7, 9);
    Joined(ND6_1 + ND6_2 + ND6_3 + ND6_4 + ND6_5, ND6_6, 0, 9, 11);
  }

  // --- which of them round-trip ---

  /** Decoding what was encoded with this table gives the value masked to its bits, in any traversal order. */
  ghost predicate RoundTrips(bits: seq<Byte>)
    requires ValidTable(bits)
  {
    forall v, order | IsTraversal(Encode(v, Entries(bits)), order) ::
      IsMasked(RoundTrip(v, Entries(bits), order), v, Entries(bits))
  }

  lemma Decide(es: seq<Entry>, hi: Byte)
    requires es != [] && Stretch(es, 0, hi)
    ensures ValidTable(TableOf(es)) && (RoundTrips(TableOf(es)) <==> NoShadowing(es))
  {
    TableRead(es);
    hide Encode, RoundTrip, IsMasked, NoShadowing, Parse;
    RoundTripExactly(es);
  }

  lemma DistinctNames(code: Name -> int, es: seq<Entry>, base: nat)
    requires Coded(code, es, base) && base > 21
    requires forall a, b | a <= b && code(a) != -1 :: code(b) == code(a)
    ensures NoShadowing(es)
  {
    forall k | 0 <= k < |es| ensures NotShadowed(es, k) {
      PlacesTellApart(code, es, base, k);
    }
  }

  lemma ChecksumShadowed(k: nat)
    requires k in {20, 21}
    ensures !NotShadowed(IFCAPBITS, k)
  {
    assert IFCAPBITS[k] == CAPS_9[k - 20] && IFCAPBITS[k - 20] == CAPS_1[k - 20];
    assert IFCAPBITS[k - 20].name <= IFCAPBITS[k].name;
  }

  lemma OthersNotShadowed(k: nat)
    requires k < |IFCAPBITS| && k !in {20, 21}
    ensures NotShadowed(IFCAPBITS, k)
  {
    ReadIFCAPBITS();
    hide Coded, CapCode, Stretch;
    forall a, b | a <= b && CapCode(a) != -1 ensures CapCode(b) == CapCode(a) {
      CapCodeOfPrefix(a, b);
    }
    PlacesTellApart(CapCode, IFCAPBITS, 0, k);
  }

  /** In IFCAPBITS exactly RXCSUM_IPV6 and TXCSUM_IPV6, bits 22 and 23, are shadowed. */
  lemma CapabilitiesShadowed(k: nat)
    requires k < |IFCAPBITS|
    ensures IFCAPBITS[20].bit == 22 && IFCAPBITS[21].bit == 23
    ensures NotShadowed(IFCAPBITS, k) <==> k !in {20, 21}
  {
    assert IFCAPBITS[20] == CAPS_9[0] && IFCAPBITS[21] == CAPS_9[1];
    hide NotShadowed;
    if k == 20 || k == 21 {
      ChecksumShadowed(k);
    } else {
      OthersNotShadowed(k);
    }
  }

  /** A table whose shadowed entries are i and j loses exactly the values with one of their bits. */
  lemma LosesTwo(es: seq<Entry>, i: nat, j: nat, v: nat, order: seq<Key>)
    requires ValidEntries(es) && DistinctBits(es) && IsTraversal(Encode(v, es), order)
    requires i < |es| && j < |es| && forall k | 0 <= k < |es| :: NotShadowed(es, k) <==> k !in {i, j}
    ensures ValidBit(es[i].bit) && ValidBit(es[j].bit)
    ensures IsMasked(RoundTrip(v, es, order), v, es) <==> !Has(v, es[i].bit as nat) && !Has(v, es[j].bit as nat)
  {
    assert es[i] in es && es[j] in es;
    hide Has, IsMasked, Encode, RoundTrip, NotShadowed;
    RoundTripByValue(v, es, order);
  }

  /**
   What a caller of `set_capabilities` can rely on: a set of capabilities survives being encoded and
   decoded, in any traversal order, exactly when it has neither RXCSUM_IPV6 nor TXCSUM_IPV6.
   */
  lemma SurvivingCapabilities()
    ensures ValidTable(TableOf(IFCAPBITS))
    ensures var es := Entries(TableOf(IFCAPBITS));
            forall v, order | IsTraversal(Encode(v, es), order) ::
              IsMasked(RoundTrip(v, es, order), v, es) <==> !Has(v, 22) && !Has(v, 23)
  {
    ReadIFCAPBITS();
    TableRead(IFCAPBITS);
    forall k | 0 <= k < |IFCAPBITS| ensures NotShadowed(IFCAPBITS, k) <==> k !in {20, 21} {
      CapabilitiesShadowed(k);
    }
    CapabilitiesShadowed(20);
    hide Has, IsMasked, Encode, RoundTrip, NotShadowed, Coded, ValidTable, Entries, TableOf;
    forall v, order | IsTraversal(Encode(v, IFCAPBITS), order)
      ensures IsMasked(RoundTrip(v, IFCAPBITS, order), v, IFCAPBITS) <==> !Has(v, 22) && !Has(v, 23)
    {
      LosesTwo(IFCAPBITS, 20, 21, v, order);
    }
  }

  /** What becomes of the two: alone they decode to RXCSUM and TXCSUM, bits 1 and 2. */
  lemma ChecksumsDecode()
    ensures ValidEntries(IFCAPBITS)
    ensures Decode([IFCAPBITS[0].name], IFCAPBITS) == 1 && Decode([IFCAPBITS[20].name], IFCAPBITS) == 1
    ensures Decode([IFCAPBITS[1].name], IFCAPBITS) == 2 && Decode([IFCAPBITS[21].name], IFCAPBITS) == 2
  {
    ReadIFCAPBITS();
    FirstChecksums();
    hide IFCAPBITS, FirstMatch;
    AloneDecodes(IFCAPBITS[0].name, IFCAPBITS, 1);
    AloneDecodes(IFCAPBITS[20].name, IFCAPBITS, 1);
    AloneDecodes(IFCAPBITS[1].name, IFCAPBITS, 2);
    AloneDecodes(IFCAPBITS[21].name, IFCAPBITS, 2);
    BitValues();
  }

  lemma FirstChecksums()
    ensures |IFCAPBITS| == 27
    ensures FirstMatch(IFCAPBITS[0].name, IFCAPBITS) == FirstMatch(IFCAPBITS[20].name, IFCAPBITS) == Some(1)
    ensures FirstMatch(IFCAPBITS[1].name, IFCAPBITS) == FirstMatch(IFCAPBITS[21].name, IFCAPBITS) == Some(2)
  {
    assert |CAPS_LOW| == 13 && |IFCAPBITS| == 27 by { ReadIFCAPBITS(); }
    assert IFCAPBITS[0] == CAPS_1[0] && IFCAPBITS[1] == CAPS_1[1];
    assert IFCAPBITS[20] == CAPS_9[0] && IFCAPBITS[21] == CAPS_9[1];
    assert IFCAPBITS[0].name[0] != IFCAPBITS[1].name[0] == IFCAPBITS[21].name[0];
    assert IFCAPBITS[0].name <= IFCAPBITS[20].name && IFCAPBITS[1].name <= IFCAPBITS[21].name;
    hide FirstMatch, IFCAPBITS;
    MatchFirst(IFCAPBITS[0].name, IFCAPBITS, 0);
    MatchFirst(IFCAPBITS[20].name, IFCAPBITS, 0);
    MatchFirst(IFCAPBITS[1].name, IFCAPBITS, 1);
    MatchFirst(IFCAPBITS[21].name, IFCAPBITS, 1);
  }

  lemma AloneDecodes(flag: Name, es: seq<Entry>, i: Byte)
    requires ValidEntries(es) && ValidBit(i) && FirstMatch(flag, es) == Some(i)
    ensures Decode([flag], es) == Bit(i as nat)
  {
    NoBits(i as nat);
    hide Has;
    assert [flag][..0] == [];
  }

  /** The lowest bit of an interface's flags is UP. */
  lemma UpAlone()
    ensures ValidEntries(IFFBITS) && Encode(1, IFFBITS) == map[Key(1) := [85, 80]]
  {
    ReadIFFBITS();
    assert IFFBITS[0] == IFF_1[0];
    hide IFFBITS, Encode;
    BitValues();
    forall key ensures key in Encode(1, IFFBITS) <==> key == Key(1) {
      EncodeMeaning(1, IFFBITS, key.bit);
      if key.bit >= 1 {
        SingleBit(1, key.bit as nat);
      }
    }
    EncodeMeaning(1, IFFBITS, 1);
  }

  /** In ND6BITS ipv6_only is both bit 10 and bit 11. */
  lemma NeighbourFlagsShadowed()
    ensures !NoShadowing(ND6BITS)
  {
    var j, k := ND6BITS[9], ND6BITS[10];
    assert j == ND6_6[0] && k == ND6_6[1];
    assert j.name <= k.name;
    assert !NotShadowed(ND6BITS, 10);
  }

  lemma InterfaceFlagsDistinct()
    ensures NoShadowing(IFFBITS)
  {
    ReadIFFBITS();
    hide Coded, IffCode;
    forall a, b | a <= b && IffCode(a) != -1 ensures IffCode(b) == IffCode(a) {
      IffCodeOfPrefix(a, b);
    }
    DistinctNames(IffCode, IFFBITS, 100);
  }

  lemma AddressFlagsDistinct()
    ensures NoShadowing(IN6BITS)
  {
    ReadIN6BITS();
    hide Coded, In6Code;
    forall a, b | a <= b && In6Code(a) != -1 ensures In6Code(b) == In6Code(a) {
      In6CodeOfPrefix(a, b);
    }
    DistinctNames(In6Code, IN6BITS, 200);
  }

  lemma HashFlagsDistinct()
    ensures NoShadowing(LAGGHASHBITS)
  {
    forall j, k | 0 <= j < k < |LAGGHASHBITS| ensures !(LAGGHASHBITS[j].name <= LAGGHASHBITS[k].name) {
      assert LAGGHASHBITS[j].name[1] != LAGGHASHBITS[k].name[1];
    }
  }

  /** Of the flag tables the file writes out, as the strings they are, three round-trip and two do not. */
  lemma WhichRoundTrip()
    ensures ValidTable(TableOf(IFCAPBITS)) && !RoundTrips(TableOf(IFCAPBITS))
    ensures ValidTable(TableOf(ND6BITS)) && !RoundTrips(TableOf(ND6BITS))
    ensures ValidTable(TableOf(IFFBITS)) && RoundTrips(TableOf(IFFBITS))
    ensures ValidTable(TableOf(IN6BITS)) && RoundTrips(TableOf(IN6BITS))
    ensures ValidTable(TableOf(LAGGHASHBITS)) && RoundTrips(TableOf(LAGGHASHBITS))
  {
    CapabilitiesShadowed(20);
    assert !NoShadowing(IFCAPBITS);
    hide Stretch, NoShadowing, RoundTrips, ValidTable, TableOf, Coded;
    ReadIFCAPBITS();
    Decide(IFCAPBITS, 29);
    ReadND6BITS();
    Decide(ND6BITS, 11);
    NeighbourFlagsShadowed();
    ReadIFFBITS();
    Decide(IFFBITS, 20);
    InterfaceFlagsDistinct();
    ReadIN6BITS();
    Decide(IN6BITS, 10);
    AddressFlagsDistinct();
    ReadLAGGHASHBITS();
    Decide(LAGGHASHBITS, 3);
    HashFlagsDistinct();
  }
}
