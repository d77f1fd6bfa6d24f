/** StringView: a 32-bit size, the first four bytes, and either the next eight bytes or a pointer. */
module StringView {
  import opened Bytes

  const PREFIX := 4
  const INLINE := 12
  const SIZES := 0x1_0000_0000  // size_ is a uint32_t

  /** The union at the end of the object. A pointer is modelled by the bytes it points to. */
  datatype Tail = Inlined(bytes: seq<byte>) | Pointer(data: seq<byte>)

  datatype View = View(size: nat, prefix: seq<byte>, value: Tail)

  function Min(a: nat, b: nat): nat { if a < b then a else b }

  function Zeros(n: nat): (bs: seq<byte>)
    ensures |bs| == n && forall i :: 0 <= i < n ==> bs[i] == 0
  {
    seq(n, _ => 0)
  }

  /** The first `n` bytes, filled up with zeros. */
  function Padded(s: seq<byte>, n: nat): (bs: seq<byte>)
    ensures |bs| == n
  {
    if |s| >= n then s[..n] else s + Zeros(n - |s|)
  }

  /** The constructor from a pointer and a 32-bit length. An empty string leaves the union as it was: `garbage`. */
  function Make(s: seq<byte>, garbage: seq<byte>): View {
    if |s| == 0 then View(0, Zeros(PREFIX), Inlined(garbage))
    else if |s| <= INLINE then
      var block := Padded(s, INLINE);
      View(|s|, block[..PREFIX], Inlined(block[PREFIX..]))
    else View(|s|, s[..PREFIX], Pointer(s))
  }

  /** The constructors from strings, which cast the length. */
  function FromString(s: seq<byte>, garbage: seq<byte>): View { Make(s[..|s| % SIZES], garbage) }

  predicate IsInline(v: View) { v.size <= INLINE }

  /** What the constructor may have produced. */
  predicate Valid(v: View) {
    && |v.prefix| == PREFIX
    && (IsInline(v) ==> v.value.Inlined? && |v.value.bytes| == INLINE - PREFIX)
    && (!IsInline(v) ==> v.value.Pointer? && |v.value.data| == v.size)
  }

  function Data(v: View): seq<byte>
    requires Valid(v)
  {
    if IsInline(v) then (v.prefix + v.value.bytes)[..v.size] else v.value.data
  }

  /** C's memcmp on blocks of one length: the difference of the first two bytes that differ. */
  function MemCmp(a: seq<byte>, b: seq<byte>): int
    requires |a| == |b|
  {
    if a == [] then 0 else if a[0] != b[0] then a[0] as int - b[0] as int else MemCmp(a[1..], b[1..])
  }

  /** A 32-bit difference stored in an int32_t. */
  function Wrap32(x: int): int {
    var m := x % 0x1_0000_0000;
    if m < 0x8000_0000 then m else m - 0x1_0000_0000
  }

  predicate Equal(a: View, b: View)
    requires Valid(a) && Valid(b)
  {
    if a.size != b.size || a.prefix != b.prefix then false
    else if IsInline(a) then a.size <= PREFIX || a.value.bytes == b.value.bytes
    else MemCmp(a.value.data[PREFIX..], b.value.data[PREFIX..]) == 0
  }

  function Compare(a: View, b: View): int
    requires Valid(a) && Valid(b)
  {
    var prefixRes := MemCmp(a.prefix, b.prefix);
    if prefixRes != 0 then prefixRes else
    var size := Wrap32(Min(a.size, b.size) - PREFIX);
    if size <= 0 then Wrap32(a.size - b.size) else
    var result :=
      if IsInline(a) && IsInline(b) then MemCmp(a.value.bytes[..size], b.value.bytes[..size])
      else MemCmp(Data(a)[PREFIX..PREFIX + size], Data(b)[PREFIX..PREFIX + size]);
    if result != 0 then result else Wrap32(a.size - b.size)
  }

  // ---- memcmp

  lemma {:induction false} MemCmpAt(a: seq<byte>, b: seq<byte>, i: nat)
    requires |a| == |b| && i < |a| && a[..i] == b[..i] && a[i] != b[i]
    ensures MemCmp(a, b) == a[i] as int - b[i] as int
  {
    if i > 0 {
      assert a[0] == a[..i][0] && b[0] == b[..i][0];
      assert a[1..][..i - 1] == a[..i][1..] && b[1..][..i - 1] == b[..i][1..];
      MemCmpAt(a[1..], b[1..], i - 1);
    }
  }

  lemma {:induction false} MemCmpEqual(a: seq<byte>, b: seq<byte>)
    requires |a| == |b|
    ensures MemCmp(a, b) == 0 <==> a == b
  {
    if a != [] {
      MemCmpEqual(a[1..], b[1..]);
      assert a == [a[0]] + a[1..] && b == [b[0]] + b[1..];
    }
  }

  // ---- The constructor keeps the contents

  lemma MakeValid(s: seq<byte>, garbage: seq<byte>)
    requires |garbage| == INLINE - PREFIX && |s| < SIZES
    ensures var v := Make(s, garbage);
            && Valid(v) && v.size == |s| && Data(v) == s && v.prefix == Padded(s, PREFIX)
            && (0 < |s| <= INLINE ==> v.value.bytes == Padded(s, INLINE)[PREFIX..])
  {
    var v := Make(s, garbage);
    if 0 < |s| <= INLINE {
      var block := Padded(s, INLINE);
      assert v.prefix + v.value.bytes == block;
      assert block[..|s|] == s;
      assert block[..PREFIX] == Padded(s, PREFIX);
    }
  }

  /** Where the bytes are: the first four always in the prefix, up to twelve in the view, more of them in the
      string it was made from. An empty view leaves the rest of its block as it was. */
  lemma MakeLayout(s: seq<byte>, garbage: seq<byte>)
    requires |garbage| == 8
    ensures var v := Make(s, garbage);
            && |v.prefix| == 4 && (forall i :: 0 <= i < 4 ==> v.prefix[i] == if i < |s| then s[i] else 0)
            && (v.value.Inlined? <==> |s| <= 12) && (IsInline(v) <==> |s| <= 12)
            && (|s| == 0 ==> v.value.bytes == garbage)
            && (0 < |s| <= 12 ==> |v.value.bytes| == 8
                                  && forall i :: 0 <= i < 8 ==> v.value.bytes[i] == if i + 4 < |s| then s[i + 4] else 0)
            && (|s| > 12 ==> v.value.data == s)
  {
  }

  /** A view made from a string holds its contents exactly when the length survives the cast. */
  lemma FromStringIff(s: seq<byte>, garbage: seq<byte>)
    requires |garbage| == INLINE - PREFIX
    ensures Valid(FromString(s, garbage)) && Data(FromString(s, garbage)) <= s
    ensures Data(FromString(s, garbage)) == s <==> |s| < SIZES
    ensures |Data(FromString(s, garbage))| == |s| % 4294967296
  {
    MakeValid(s[..|s| % SIZES], garbage);
  }

  /** Inside the first twelve bytes the union holds the string from its fifth byte on. */
  lemma InlineSlice(s: seq<byte>, n: nat)
    requires PREFIX + n <= |s| <= INLINE
    ensures Padded(s, INLINE)[PREFIX..][..n] == s[PREFIX..PREFIX + n]
  {
  }

  // ---- Equality

  /** == compares contents, whatever the two representations. */
  lemma EqualIffSame(s: seq<byte>, t: seq<byte>, gs: seq<byte>, gt: seq<byte>)
    requires |gs| == |gt| == INLINE - PREFIX && |s| < SIZES && |t| < SIZES
    ensures Valid(Make(s, gs)) && Valid(Make(t, gt))
    ensures Equal(Make(s, gs), Make(t, gt)) <==> s == t
  {
    MakeValid(s, gs);
    MakeValid(t, gt);
    var a, b := Make(s, gs), Make(t, gt);
    if |s| == |t| && Padded(s, PREFIX) == Padded(t, PREFIX) {
      if |s| <= PREFIX {
        ShortSame(s, t);
      } else if |s| <= INLINE {
        assert Data(a) == (a.prefix + a.value.bytes)[..|s|] && Data(b) == (b.prefix + b.value.bytes)[..|s|];
      } else {
        MemCmpEqual(s[PREFIX..], t[PREFIX..]);
        assert s == s[..PREFIX] + s[PREFIX..] && t == t[..PREFIX] + t[PREFIX..];
      }
    }
  }

  lemma ShortSame(s: seq<byte>, t: seq<byte>)
    requires |s| == |t| <= PREFIX && Padded(s, PREFIX) == Padded(t, PREFIX)
    ensures s == t
  {
    assert s == Padded(s, PREFIX)[..|s|] && t == Padded(t, PREFIX)[..|t|];
  }

  // ---- Order

  function Sign(x: int): int { if x < 0 then -1 else if x > 0 then 1 else 0 }

  function LexSign(s: seq<byte>, t: seq<byte>): int {
    if s == t then 0 else if LexLess(s, t) then -1 else 1
  }

  /** One is a prefix of the other: the shorter comes first. */
  lemma LexSignPrefix(s: seq<byte>, t: seq<byte>)
    requires s <= t || t <= s
    ensures LexSign(s, t) == Sign(|s| - |t|)
  {
    if s <= t { LexPrefix(s, t); } else { LexPrefix(t, s); }
  }

  lemma LexSignAt(s: seq<byte>, t: seq<byte>, i: nat)
    requires i < |s| && i < |t| && s[..i] == t[..i] && s[i] != t[i]
    ensures LexSign(s, t) == Sign(s[i] as int - t[i] as int)
  {
    LexAt(s, t, i);
  }

  /** Different prefix blocks decide, and decide rightly. */
  lemma PrefixDecides(s: seq<byte>, t: seq<byte>)
    requires Padded(s, PREFIX) != Padded(t, PREFIX)
    ensures Sign(MemCmp(Padded(s, PREFIX), Padded(t, PREFIX))) == LexSign(s, t)
  {
    var p, q := Padded(s, PREFIX), Padded(t, PREFIX);
    var i := FirstDifference(p, q);
    assert p[..|p|] == p && q[..|q|] == q;
    assert i < PREFIX;
    MemCmpAt(p, q, i);
    PaddedStart(s, i);
    PaddedStart(t, i);
    if i < |s| && i < |t| {
      LexSignAt(s, t, i);
    } else if i < |t| {
      // s ended within the block: it is a prefix of t
      EndedInside(s, t, i);
      LexSignPrefix(s, t);
    } else {
      EndedInside(t, s, i);
      LexSignPrefix(s, t);
    }
  }

  /** The prefix block, byte by byte. */
  lemma PaddedStart(s: seq<byte>, i: nat)
    requires i < PREFIX
    ensures Padded(s, PREFIX)[i] == if i < |s| then s[i] else 0
    ensures i <= |s| ==> Padded(s, PREFIX)[..i] == s[..i]
    ensures |s| <= i ==> Padded(s, PREFIX)[..|s|] == s
  {
  }

  /** Blocks that agree up to where `t` still has a byte and `s` has none. */
  lemma EndedInside(s: seq<byte>, t: seq<byte>, i: nat)
    requires i < PREFIX && |s| <= i < |t| && Padded(s, PREFIX)[..i] == Padded(t, PREFIX)[..i]
    ensures s <= t
  {
    PaddedStart(s, i);
    PaddedStart(t, i);
    assert s == Padded(s, PREFIX)[..i][..|s|] == t[..i][..|s|] == t[..|s|];
  }

  /** Equal prefix blocks and a string of at most four bytes: it is a prefix of the other. */
  lemma ShortIsPrefix(s: seq<byte>, t: seq<byte>)
    requires Padded(s, PREFIX) == Padded(t, PREFIX) && |s| <= |t| && |s| <= PREFIX
    ensures s <= t
  {
    assert s == Padded(s, PREFIX)[..|s|];
    assert t[..|s|] == Padded(t, PREFIX)[..|s|];
  }

  lemma SliceSplit(s: seq<byte>, n: nat, i: nat)
    requires i <= n && PREFIX + n <= |s|
    ensures s[..PREFIX + i] == s[..PREFIX] + s[PREFIX..PREFIX + n][..i]
  {
  }

  /** The bytes after the prefix, up to the shorter length. */
  lemma MiddleDecides(s: seq<byte>, t: seq<byte>, n: nat)
    requires |s| >= PREFIX && |t| >= PREFIX && s[..PREFIX] == t[..PREFIX] && n == Min(|s|, |t|) - PREFIX
    ensures var m := MemCmp(s[PREFIX..PREFIX + n], t[PREFIX..PREFIX + n]);
            && (m != 0 ==> Sign(m) == LexSign(s, t))
            && (m == 0 <==> s <= t || t <= s)
  {
    var a, b := s[PREFIX..PREFIX + n], t[PREFIX..PREFIX + n];
    MemCmpEqual(a, b);
    SliceSplit(s, n, n);
    SliceSplit(t, n, n);
    if a != b {
      var i := FirstDifference(a, b);
      assert a[..|a|] == a && b[..|b|] == b;
      MemCmpAt(a, b, i);
      SliceSplit(s, n, i);
      SliceSplit(t, n, i);
      LexSignAt(s, t, PREFIX + i);
      assert s[PREFIX + i] != t[PREFIX + i];
    } else {
      assert a[..n] == a && b[..n] == b;
    }
  }

  /** The length from which compare's signed 32-bit byte count is negative. */
  const COMPARED := 0x8000_0000 + PREFIX

  /** Compare looks at every byte of the shorter string that it needs. */
  predicate Compared(s: seq<byte>, t: seq<byte>) {
    Padded(s, PREFIX) != Padded(t, PREFIX) || |s| < COMPARED || |t| < COMPARED
  }

  /** A byte that both strings have, or the padding of the prefix block, tells them apart. */
  predicate Apart(s: seq<byte>, t: seq<byte>) {
    Padded(s, PREFIX) != Padded(t, PREFIX) || !(s <= t || t <= s)
  }

  /** What compare returns, in terms of the contents. */
  lemma CompareIs(s: seq<byte>, t: seq<byte>, gs: seq<byte>, gt: seq<byte>)
    requires |gs| == |gt| == INLINE - PREFIX && |s| < SIZES && |t| < SIZES
    ensures Valid(Make(s, gs)) && Valid(Make(t, gt))
    ensures var c := Compare(Make(s, gs), Make(t, gt));
            && (Compared(s, t) && Apart(s, t) ==> Sign(c) == LexSign(s, t) && c != 0)
            && (Compared(s, t) && !Apart(s, t) ==> c == Wrap32(|s| - |t|))
            && (!Compared(s, t) ==> c == |s| - |t|)
  {
    MakeValid(s, gs);
    MakeValid(t, gt);
    var p, q := Padded(s, PREFIX), Padded(t, PREFIX);
    MemCmpEqual(p, q);
    if p != q {
      PrefixDecides(s, t);
    } else if Compared(s, t) {
      SamePrefixBlocks(s, t, gs, gt);
    } else {
      WrapLarge(Min(|s|, |t|) - PREFIX);
      WrapSmall(|s| - |t|);
    }
  }

  lemma SamePrefixBlocks(s: seq<byte>, t: seq<byte>, gs: seq<byte>, gt: seq<byte>)
    requires |gs| == |gt| == INLINE - PREFIX && |s| < SIZES && |t| < SIZES
    requires Padded(s, PREFIX) == Padded(t, PREFIX) && Compared(s, t)
    ensures Valid(Make(s, gs)) && Valid(Make(t, gt))
    ensures var c := Compare(Make(s, gs), Make(t, gt));
            if s <= t || t <= s then c == Wrap32(|s| - |t|) else Sign(c) == LexSign(s, t) && c != 0
  {
    MakeValid(s, gs);
    MakeValid(t, gt);
    var a, b := Make(s, gs), Make(t, gt);
    var p, q := Padded(s, PREFIX), Padded(t, PREFIX);
    MemCmpEqual(p, q);
    var n := Min(|s|, |t|) - PREFIX;
    WrapSmall(n);
    if n <= 0 {
      if |s| <= |t| { ShortIsPrefix(s, t); } else { ShortIsPrefix(t, s); }
    } else {
      assert s[..PREFIX] == p && t[..PREFIX] == q;
      MiddleDecides(s, t, n);
      if IsInline(a) && IsInline(b) {
        InlineSlice(s, n);
        InlineSlice(t, n);
      }
    }
  }

  lemma WrapSmall(x: int)
    requires -0x8000_0000 <= x < 0x8000_0000
    ensures Wrap32(x) == x
  {
  }

  lemma WrapLarge(x: int)
    requires -0x1_0000_0000 < x < 0x1_0000_0000
    ensures Sign(Wrap32(x)) == Sign(x) <==> -0x8000_0000 <= x < 0x8000_0000
  {
  }

  /** For strings shorter than 2^31 compare is lexicographic order, and 0 exactly when == holds. */
  lemma CompareIsLexicographic(s: seq<byte>, t: seq<byte>, gs: seq<byte>, gt: seq<byte>)
    requires |gs| == |gt| == INLINE - PREFIX && |s| < 0x8000_0000 && |t| < 0x8000_0000
    ensures Valid(Make(s, gs)) && Valid(Make(t, gt))
    ensures Sign(Compare(Make(s, gs), Make(t, gt))) == LexSign(s, t)
    ensures Compare(Make(s, gs), Make(t, gt)) == 0 <==> Equal(Make(s, gs), Make(t, gt))
  {
    CompareIs(s, t, gs, gt);
    EqualIffSame(s, t, gs, gt);
    if s <= t || t <= s {
      LexSignPrefix(s, t);
      WrapSmall(|s| - |t|);
    }
  }

  /** For all sizes, the sign is right exactly in these cases. As long as the shorter string is below
      2^31 + 4 bytes, a byte decides or the sizes are less than 2^31 apart. From there on only the first
      four bytes and the sizes are looked at, and the sizes have to tell the truth. */
  lemma CompareExact(s: seq<byte>, t: seq<byte>, gs: seq<byte>, gt: seq<byte>)
    requires |gs| == |gt| == INLINE - PREFIX && |s| < SIZES && |t| < SIZES
    ensures Valid(Make(s, gs)) && Valid(Make(t, gt))
    ensures Sign(Compare(Make(s, gs), Make(t, gt))) == LexSign(s, t) <==>
              if Compared(s, t) then Apart(s, t) || -0x8000_0000 <= |s| - |t| < 0x8000_0000
              else Sign(|s| - |t|) == LexSign(s, t)
  {
    CompareIs(s, t, gs, gt);
    if s <= t || t <= s {
      LexSignPrefix(s, t);
      WrapLarge(|s| - |t|);
    }
  }

  /** Compare returns 0 exactly when == holds, except for different strings of one size of 2^31 + 4 bytes
      or more that begin with the same four bytes. */
  lemma CompareZeroExact(s: seq<byte>, t: seq<byte>, gs: seq<byte>, gt: seq<byte>)
    requires |gs| == |gt| == INLINE - PREFIX && |s| < SIZES && |t| < SIZES
    ensures Valid(Make(s, gs)) && Valid(Make(t, gt))
    ensures (Compare(Make(s, gs), Make(t, gt)) == 0 <==> Equal(Make(s, gs), Make(t, gt))) <==>
              Compared(s, t) || |s| != |t| || s == t
  {
    CompareIs(s, t, gs, gt);
    EqualIffSame(s, t, gs, gt);
    WrapZero(|s| - |t|);
  }

  lemma WrapZero(x: int)
    requires -SIZES < x < SIZES
    ensures Wrap32(x) == 0 <==> x == 0
  {
  }

  /** 2^31 zero bytes compare below the empty string. */
  lemma CompareWraps(g: seq<byte>)
    requires |g| == INLINE - PREFIX
    ensures var long := Zeros(0x8000_0000);
            && Valid(Make(long, g)) && Valid(Make([], g))
            && Compare(Make(long, g), Make([], g)) < 0 && LexLess([], long)
  {
    var long := Zeros(0x8000_0000);
    CompareIs(long, [], g, g);
    assert Padded(long, PREFIX) == Zeros(PREFIX) == Padded([], PREFIX);
    assert [] <= long;
  }

  /** A byte `x` behind four zeros and in front of `n` more. */
  function Marked(x: byte, n: nat): (bs: seq<byte>)
    ensures |bs| == n + PREFIX + 1
  {
    Zeros(PREFIX) + [x] + Zeros(n)
  }

  /** Two strings of one size of 2^31 + 5 bytes that differ in their fifth byte compare as 0. */
  lemma CompareMisses(g: seq<byte>, n: nat)
    requires |g| == INLINE - PREFIX && n == 0x8000_0000
    ensures var s, t := Marked(1, n), Marked(2, n);
            && Valid(Make(s, g)) && Valid(Make(t, g)) && LexLess(s, t)
            && Compare(Make(s, g), Make(t, g)) == 0 && !Equal(Make(s, g), Make(t, g))
  {
    var s, t := Marked(1, n), Marked(2, n);
    assert s[..PREFIX] == Zeros(PREFIX) == t[..PREFIX];
    assert s[PREFIX] == 1 && t[PREFIX] == 2;
    LexAt(s, t, PREFIX);
    CompareIs(s, t, g, g);
    EqualIffSame(s, t, g, g);
  }
}
