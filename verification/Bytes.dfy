/** Bytes, fixed-width unsigned integers in both byte orders, and lexicographic order. */
module Bytes {
  import opened Arithmetic

  type byte = b: int | 0 <= b < 256

  function Pow256(n: nat): (p: nat)
    ensures p > 0
  {
    if n == 0 then 1 else 256 * Pow256(n - 1)
  }

  lemma Regroup(a: seq<byte>, b: seq<byte>, c: seq<byte>)
    ensures a + b + c == a + (b + c)
  {
  }

  /** A four-byte length, that many bytes, and whatever follows. */
  lemma CountedCut(count: seq<byte>, body: seq<byte>, rest: seq<byte>)
    requires |count| == 4
    ensures var buf := count + body + rest;
            && |buf| == 4 + |body| + |rest| && buf[..4] == count && buf[4..] == body + rest
            && buf[4..4 + |body|] == body && buf[4 + |body|..] == rest
  {
  }

  // ---- Little endian: how the host lays out an integer in memory

  function ToLittle(x: nat, width: nat): (bs: seq<byte>)
    ensures |bs| == width
  {
    if width == 0 then [] else [x % 256] + ToLittle(x / 256, width - 1)
  }

  function FromLittle(bs: seq<byte>): nat {
    if bs == [] then 0 else bs[0] + 256 * FromLittle(bs[1..])
  }

  lemma {:induction false} LittleRoundTrip(x: nat, width: nat)
    ensures FromLittle(ToLittle(x, width)) == x % Pow256(width)
  {
    if width > 0 {
      LittleRoundTrip(x / 256, width - 1);
      assert ToLittle(x, width)[1..] == ToLittle(x / 256, width - 1);
      ModSplit(x, Pow256(width - 1));
    } else {
      assert x % 1 == 0;
    }
  }

  lemma ModSplit(x: nat, p: nat)
    requires p > 0
    ensures x % (256 * p) == x % 256 + 256 * (x / 256 % p)
  {
    var q, r := x / 256, x % 256;
    var a, b := q / p, q % p;
    assert q == a * p + b;
    assert x == 256 * q + r;
    assert x == (256 * p) * a + (256 * b + r) by { assert 256 * (a * p) == (256 * p) * a; }
    assert 256 * b + r < 256 * p by { assert b <= p - 1; }
    DivModUnique(x, 256 * p, a, 256 * b + r);
  }

  lemma {:induction false} FromLittleFits(bs: seq<byte>)
    ensures FromLittle(bs) < Pow256(|bs|)
  {
    if bs != [] {
      FromLittleFits(bs[1..]);
    }
  }

  lemma {:induction false} FromBigFits(bs: seq<byte>)
    ensures FromBig(bs) < Pow256(|bs|)
  {
    if bs != [] {
      FromBigFits(bs[..|bs| - 1]);
    }
  }

  /** Byte i holds digit i of the number in base 256, the lowest first. */
  lemma {:induction false} LittleDigit(x: nat, width: nat, i: nat)
    requires i < width
    ensures ToLittle(x, width)[i] == x / Pow256(i) % 256
  {
    if i > 0 {
      LittleDigit(x / 256, width - 1, i - 1);
      DivTwice(x, Pow256(i - 1));
    } else {
      assert x / 1 == x;
    }
  }

  lemma DivTwice(x: nat, p: nat)
    requires p > 0
    ensures x / 256 / p == x / (256 * p)
  {
    var q, r := x / 256, x % 256;
    DivModIs(q, p);
    var a, b := q / p, q % p;
    assert 256 * (p * a) == (256 * p) * a;
    DivModUnique(x, 256 * p, a, 256 * b + r);
  }

  // ---- Big endian: how keys are written

  function ToBig(x: nat, width: nat): (bs: seq<byte>)
    ensures |bs| == width
  {
    if width == 0 then [] else ToBig(x / 256, width - 1) + [x % 256]
  }

  function FromBig(bs: seq<byte>): nat {
    if bs == [] then 0 else 256 * FromBig(bs[..|bs| - 1]) + bs[|bs| - 1]
  }

  lemma {:induction false} BigRoundTrip(x: nat, width: nat)
    ensures FromBig(ToBig(x, width)) == x % Pow256(width)
  {
    if width > 0 {
      BigRoundTrip(x / 256, width - 1);
      assert ToBig(x, width)[..width - 1] == ToBig(x / 256, width - 1);
      ModSplit(x, Pow256(width - 1));
    } else {
      assert x % 1 == 0;
    }
  }

  /** Byte i holds digit width - 1 - i: the highest comes first. */
  lemma {:induction false} BigDigit(x: nat, width: nat, i: nat)
    requires i < width
    ensures ToBig(x, width)[i] == x / Pow256(width - 1 - i) % 256
  {
    if i < width - 1 {
      BigDigit(x / 256, width - 1, i);
      DivTwice(x, Pow256(width - 2 - i));
    } else {
      assert x / 1 == x;
    }
  }

  // ---- Unsigned lexicographic order; a prefix comes first

  predicate LexLess(s: seq<byte>, t: seq<byte>) {
    if t == [] then false
    else if s == [] then true
    else if s[0] != t[0] then s[0] < t[0]
    else LexLess(s[1..], t[1..])
  }

  predicate LexLeq(s: seq<byte>, t: seq<byte>) { s == t || LexLess(s, t) }

  /** Two strings that first differ at byte `i` are ordered by that byte. */
  lemma {:induction false} LexAt(s: seq<byte>, t: seq<byte>, i: nat)
    requires i < |s| && i < |t| && s[..i] == t[..i] && s[i] != t[i]
    ensures LexLess(s, t) <==> s[i] < t[i]
  {
    if i > 0 {
      assert s[0] == s[..i][0] && t[0] == t[..i][0];
      assert s[1..][..i - 1] == s[..i][1..] && t[1..][..i - 1] == t[..i][1..];
      LexAt(s[1..], t[1..], i - 1);
    }
  }

  /** A proper prefix comes first. */
  lemma {:induction false} LexPrefix(s: seq<byte>, t: seq<byte>)
    requires s <= t
    ensures LexLess(s, t) <==> |s| < |t|
    ensures !LexLess(t, s)
  {
    if s != [] {
      assert s[0] == t[0];
      LexPrefix(s[1..], t[1..]);
    }
  }

  /** Either one is a prefix of the other, or they first differ somewhere. */
  lemma {:induction false} FirstDifference(s: seq<byte>, t: seq<byte>) returns (i: nat)
    ensures i <= |s| && i <= |t| && s[..i] == t[..i]
    ensures i < |s| && i < |t| ==> s[i] != t[i]
  {
    if s == [] || t == [] || s[0] != t[0] {
      i := 0;
    } else {
      var j := FirstDifference(s[1..], t[1..]);
      i := j + 1;
      assert s[..i] == [s[0]] + s[1..][..j] && t[..i] == [t[0]] + t[1..][..j];
    }
  }

  lemma {:induction false} LexAppend(a: seq<byte>, b: seq<byte>, x: byte, y: byte)
    requires |a| == |b|
    ensures LexLess(a + [x], b + [y]) <==> LexLess(a, b) || (a == b && x < y)
  {
    var i := FirstDifference(a, b);
    if i < |a| {
      LexAt(a, b, i);
      assert (a + [x])[..i] == a[..i] && (b + [y])[..i] == b[..i];
      LexAt(a + [x], b + [y], i);
    } else {
      assert a == a[..i] && b == b[..i];
      LexPrefix(a, b);
      if x != y {
        assert (a + [x])[..i] == a && (b + [y])[..i] == b;
        LexAt(a + [x], b + [y], i);
      } else {
        LexPrefix(a + [x], b + [y]);
      }
    }
  }

  /** Big-endian encodings of one width sort as the numbers do. */
  lemma {:induction false} BigOrder(x: nat, y: nat, width: nat)
    requires x < Pow256(width) && y < Pow256(width)
    ensures LexLess(ToBig(x, width), ToBig(y, width)) <==> x < y
    ensures ToBig(x, width) == ToBig(y, width) <==> x == y
  {
    if width > 0 {
      BigOrder(x / 256, y / 256, width - 1);
      LexAppend(ToBig(x / 256, width - 1), ToBig(y / 256, width - 1), x % 256, y % 256);
      var a, b := ToBig(x, width), ToBig(y, width);
      assert a[..width - 1] == ToBig(x / 256, width - 1) && b[..width - 1] == ToBig(y / 256, width - 1);
      assert a[width - 1] == x % 256 && b[width - 1] == y % 256;
    }
  }
}
