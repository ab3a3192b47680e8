/** Object identifiers: fixed-width arrays of C ints compared as bytes, and their lexicographic order. */
module Oid {
  import opened CTypes
  import opened Wrappers

  type Oid = seq<int32>

  const CTL_MAXNAME: nat := 24

  /** Lexicographic order; a proper prefix comes first. */
  predicate Less(a: Oid, b: Oid) {
    if b == [] then false
    else if a == [] then true
    else a[0] < b[0] || (a[0] == b[0] && Less(a[1..], b[1..]))
  }

  /** The first difference decides; without one, the shorter comes first. */
  predicate DiffersAt(a: Oid, b: Oid, k: nat) {
    k <= |a| && k < |b| && a[..k] == b[..k] && (k == |a| || a[k] < b[k])
  }

  lemma {:induction false} LessIsLexicographic(a: Oid, b: Oid)
    ensures Less(a, b) <==> exists k: nat :: DiffersAt(a, b, k)
  {
    if a != [] && b != [] {
      LessIsLexicographic(a[1..], b[1..]);
      if a[0] < b[0] {
        assert DiffersAt(a, b, 0);
      } else if a[0] == b[0] {
        if k: nat :| DiffersAt(a[1..], b[1..], k) {
          assert a[..k + 1] == [a[0]] + a[1..][..k] && b[..k + 1] == [b[0]] + b[1..][..k];
          assert DiffersAt(a, b, k + 1);
        }
        if k: nat :| DiffersAt(a, b, k) {
          assert k > 0;
          assert a[1..][..k - 1] == a[..k][1..] && b[1..][..k - 1] == b[..k][1..];
          assert DiffersAt(a[1..], b[1..], k - 1);
        }
      } else {
        forall k: nat ensures !DiffersAt(a, b, k) {
          assert k > 0 && k <= |a| && k < |b| ==> a[..k][0] != b[..k][0];
        }
      }
    } else if b != [] {
      assert DiffersAt(a, b, 0);
    }
  }

  lemma {:induction false} LessIrreflexive(a: Oid)
    ensures !Less(a, a)
  {
    if a != [] {
      LessIrreflexive(a[1..]);
    }
  }

  lemma {:induction false} LessTransitive(a: Oid, b: Oid, c: Oid)
    requires Less(a, b) && Less(b, c)
    ensures Less(a, c)
  {
    if a != [] && b[0] == a[0] && c[0] == b[0] {
      LessTransitive(a[1..], b[1..], c[1..]);
    }
  }

  lemma {:induction false} ProperPrefixLess(p: Oid, a: Oid)
    requires p < a
    ensures Less(p, a)
  {
    if p != [] {
      ProperPrefixLess(p[1..], a[1..]);
    }
  }

  /** Extensions of p form a contiguous stretch: past the first one that is not, there are none. */
  lemma {:induction false} PrefixConvex(p: Oid, a: Oid, b: Oid, c: Oid)
    requires p <= a && Less(a, b) && !(p <= b) && Less(b, c)
    ensures !(p <= c)
  {
    PrefixCons(p, a);
    PrefixCons(p, b);
    PrefixCons(p, c);
    if a[0] == b[0] == c[0] {
      PrefixConvex(p[1..], a[1..], b[1..], c[1..]);
    }
  }

  // --- the representation memcmp sees ---

  function Bytes(s: seq<int32>): (b: seq<byte>)
    ensures |b| == INT_SIZE * |s|
  {
    if s == [] then [] else IntBytes(s[0]) + Bytes(s[1..])
  }

  /** Comparing m ints' worth of bytes compares m ints. */
  lemma {:induction false} SameBytes(a: seq<int32>, b: seq<int32>, m: nat)
    requires m <= |a| && m <= |b|
    ensures Bytes(a)[..INT_SIZE * m] == Bytes(b)[..INT_SIZE * m] <==> a[..m] == b[..m]
  {
    hide IntBytes;
    if m > 0 {
      var x, y := Bytes(a[1..]), Bytes(b[1..]);
      SameBytes(a[1..], b[1..], m - 1);
      assert Bytes(a)[..INT_SIZE * m] == IntBytes(a[0]) + x[..INT_SIZE * (m - 1)];
      assert Bytes(b)[..INT_SIZE * m] == IntBytes(b[0]) + y[..INT_SIZE * (m - 1)];
      if Bytes(a)[..INT_SIZE * m] == Bytes(b)[..INT_SIZE * m] {
        assert Bytes(a)[..INT_SIZE * m][..INT_SIZE] == IntBytes(a[0]);
        assert Bytes(b)[..INT_SIZE * m][..INT_SIZE] == IntBytes(b[0]);
        assert Bytes(a)[..INT_SIZE * m][INT_SIZE..] == x[..INT_SIZE * (m - 1)];
        assert Bytes(b)[..INT_SIZE * m][INT_SIZE..] == y[..INT_SIZE * (m - 1)];
        IntBytesInjective(a[0], b[0]);
      }
      assert a[..m] == [a[0]] + a[1..][..m - 1] && b[..m] == [b[0]] + b[1..][..m - 1];
      if a[..m] == b[..m] {
        assert a[..m][0] == b[..m][0];
        assert a[..m][1..] == b[..m][1..];
        assert a[1..][..m - 1] == a[..m][1..] && b[1..][..m - 1] == b[..m][1..];
      }
    }
  }

  /** An oid in a zeroed array of CTL_MAXNAME ints. */
  function Padded(a: Oid): (s: seq<int32>)
    requires |a| <= CTL_MAXNAME
    ensures |s| == CTL_MAXNAME
  {
    a + seq(CTL_MAXNAME - |a|, _ => 0 as int32)
  }

  /**
   The iterator's test compares zero-padded arrays over the first m ints of p.  For a successor
   of p it is exactly the prefix test: a successor is never a proper prefix of its predecessor.
   */
  lemma PaddedPrefix(p: Oid, x: Oid, m: nat)
    requires |p| <= CTL_MAXNAME && |x| <= CTL_MAXNAME && m <= |p| && Less(p, x)
    ensures Padded(p)[..m] == Padded(x)[..m] <==> p[..m] <= x
  {
    if Padded(p)[..m] == Padded(x)[..m] {
      if |x| < m {
        assert Padded(x)[..m][..|x|] == x && Padded(p)[..m][..|x|] == p[..|x|];
        assert x < p;
        ProperPrefixLess(x, p);
        LessTransitive(p, x, p);
        LessIrreflexive(p);
      } else {
        assert Padded(x)[..m] == x[..m] && Padded(p)[..m] == p[..m];
      }
    }
    if p[..m] <= x {
      assert Padded(x)[..m] == x[..m] == p[..m] == Padded(p)[..m];
    }
  }
}
