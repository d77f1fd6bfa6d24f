/** The key format of KVEncoder and KVDecoder: big-endian integers, counted strings and containers, and
    a decoder that adds to containers instead of replacing them. */
module KeyCodec {
  import opened Arithmetic
  import opened Bytes
  import C = Codec
  import T = CodecTheorems
  import L = CodecBytes

  type Ty = C.Ty
  type Val = C.Val

  /** The types KVEncoder has an overload for. Enums and dates are integers; a host address is a pair. */
  predicate Keyable(ty: Ty) {
    match ty
    case Scalar(_) => true
    case Bool => true
    case Str => true
    case Opt(_) => false
    case Tuple(_) => false
    case Pair(x, y) => Keyable(x) && Keyable(y)
    case Vec(e) => Keyable(e)
    case Dict(k, x) => Keyable(k) && Keyable(x)
  }

  function Count(n: nat): seq<byte> { ToBig(n, 4) }

  function Encode(ty: Ty, v: Val): seq<byte>
    requires Keyable(ty) && C.Typed(ty, v)
    decreases ty, 1, 0
  {
    match ty
    case Scalar(w) => ToBig(v.n, w.Size())
    case Bool => [if v.b then 1 else 0]
    case Str => Count(|v.bytes|) + v.bytes
    case Pair(x, y) => Encode(x, v.a) + Encode(y, v.b2)
    case Vec(_) => Count(|v.items|) + EncodeItems(ty, v.items)
    case Dict(_, _) => Count(|v.keys|) + EncodeEntries(ty, v.keys, v.vals)
  }

  function EncodeItems(ty: Ty, items: seq<Val>): seq<byte>
    requires ty.Vec? && Keyable(ty) && forall i :: 0 <= i < |items| ==> C.Typed(ty.elem, items[i])
    decreases ty, 0, |items|
  {
    if items == [] then [] else Encode(ty.elem, items[0]) + EncodeItems(ty, items[1..])
  }

  function EncodeEntries(ty: Ty, keys: seq<Val>, vals: seq<Val>): seq<byte>
    requires ty.Dict? && Keyable(ty) && |keys| == |vals|
    requires forall i :: 0 <= i < |keys| ==> C.Typed(ty.key, keys[i])
    requires forall i :: 0 <= i < |vals| ==> C.Typed(ty.value, vals[i])
    decreases ty, 0, |keys|
  {
    if keys == [] then [] else
    Encode(ty.key, keys[0]) + Encode(ty.value, vals[0]) + EncodeEntries(ty, keys[1..], vals[1..])
  }

  // ---- Which byte stands where

  /** An integer is its digits in base 256, the highest first. */
  lemma ScalarBytes(w: C.Width, n: nat, i: nat)
    requires n < Pow256(w.Size()) && i < w.Size()
    ensures var bs := Encode(C.Scalar(w), C.Num(n));
            |bs| == w.Size() && bs[i] == n / Pow256(w.Size() - 1 - i) % 256
  {
    BigDigit(n, w.Size(), i);
  }

  lemma FlagBytes(b: bool)
    ensures Encode(C.Bool, C.Flag(b)) == [One(b)]
  {
  }

  /** Strings, vectors and maps begin with the four digits of their length. */
  lemma LengthBytes(ty: Ty, v: Val, i: nat)
    requires Keyable(ty) && L.Counted(ty) && C.Typed(ty, v) && i < 4
    ensures |Encode(ty, v)| >= 4 && Encode(ty, v)[i] == L.Length(ty, v) / Pow256(3 - i) % 256
  {
    BigDigit(L.Length(ty, v), 4, i);
  }

  /** A string ends with its own bytes; a pair is one value after the other. */
  lemma PlainBytes(bytes: seq<byte>, x: Ty, y: Ty, a: Val, b: Val)
    requires Keyable(x) && Keyable(y) && C.Typed(x, a) && C.Typed(y, b)
    ensures |Encode(C.Str, C.Text(bytes))| == 4 + |bytes| && Encode(C.Str, C.Text(bytes))[4..] == bytes
    ensures |Encode(C.Pair(x, y), C.Two(a, b))| == |Encode(x, a)| + |Encode(y, b)|
    ensures Encode(x, a) <= Encode(C.Pair(x, y), C.Two(a, b))
    ensures Encode(C.Pair(x, y), C.Two(a, b))[|Encode(x, a)|..] == Encode(y, b)
  {
  }

  /** After the length of a vector its elements stand in order. */
  lemma ItemsBytes(of: Ty, x: Val, xs: seq<Val>)
    requires Keyable(of) && C.Typed(of, x) && C.Typed(C.Vec(of), C.List(xs))
    ensures C.Typed(C.Vec(of), C.List([x] + xs))
    ensures |Encode(C.Vec(of), C.List([]))| == 4 <= |Encode(C.Vec(of), C.List(xs))|
    ensures Encode(C.Vec(of), C.List([x] + xs))[4..] == Encode(of, x) + Encode(C.Vec(of), C.List(xs))[4..]
  {
    assert ([x] + xs)[1..] == xs;
  }

  /** After the length of a map its entries stand in order, each as the pair of its key and value. */
  lemma EntriesBytes(k: Ty, x: Ty, key: Val, val: Val, keys: seq<Val>, vals: seq<Val>)
    requires Keyable(k) && Keyable(x) && C.Typed(C.Dict(k, x), C.Entries([key] + keys, [val] + vals))
    ensures C.Typed(C.Pair(k, x), C.Two(key, val)) && C.Typed(C.Dict(k, x), C.Entries(keys, vals))
    ensures |Encode(C.Dict(k, x), C.Entries([], []))| == 4 <= |Encode(C.Dict(k, x), C.Entries(keys, vals))|
    ensures Encode(C.Dict(k, x), C.Entries([key] + keys, [val] + vals))[4..]
         == Encode(C.Pair(k, x), C.Two(key, val)) + Encode(C.Dict(k, x), C.Entries(keys, vals))[4..]
  {
    L.EntryTyped(k, x, key, val, keys, vals);
    assert ([key] + keys)[1..] == keys && ([val] + vals)[1..] == vals;
  }

  // ---- Decoding into a target that already holds something

  /** A default-constructed variable. */
  function Fresh(ty: Ty): (v: Val)
    requires Keyable(ty)
    ensures C.Typed(ty, v)
  {
    match ty
    case Scalar(_) => C.Num(0)
    case Bool => C.Flag(false)
    case Str => C.Text([])
    case Pair(x, y) => C.Two(Fresh(x), Fresh(y))
    case Vec(_) => C.List([])
    case Dict(_, _) => C.Entries([], [])
  }

  /** The new target and the unread bytes; nothing when the bytes run out. */
  datatype Decoded = Got(v: Val, rest: seq<byte>) | Short

  function Decode(ty: Ty, target: Val, piece: seq<byte>): Decoded
    requires Keyable(ty) && C.Typed(ty, target)
    decreases ty, 1, 0
  {
    match ty
    case Scalar(w) =>
      if |piece| < w.Size() then Short else Got(C.Num(FromBig(piece[..w.Size()])), piece[w.Size()..])
    case Bool => if |piece| < 1 then Short else Got(C.Flag(piece[0] != 0), piece[1..])
    case Str =>
      if |piece| < 4 then Short else
      var n := FromBig(piece[..4]);
      if |piece| - 4 < n then Short else Got(C.Text(piece[4..4 + n]), piece[4 + n..])
    case Pair(x, y) =>
      (match Decode(x, target.a, piece)
       case Short => Short
       case Got(a, rest) =>
         match Decode(y, target.b2, rest)
         case Short => Short
         case Got(b, rest) => Got(C.Two(a, b), rest))
    case Vec(_) =>
      if |piece| < 4 then Short else DecodeItems(ty, FromBig(piece[..4]), piece[4..], target.items)
    case Dict(_, _) =>
      if |piece| < 4 then Short else DecodeEntries(ty, FromBig(piece[..4]), piece[4..], target.keys, target.vals)
  }

  function DecodeItems(ty: Ty, n: nat, piece: seq<byte>, acc: seq<Val>): Decoded
    requires ty.Vec? && Keyable(ty)
    decreases ty, 0, n
  {
    if n == 0 then Got(C.List(acc), piece) else
    match Decode(ty.elem, Fresh(ty.elem), piece)
    case Short => Short
    case Got(v, rest) => DecodeItems(ty, n - 1, rest, acc + [v])
  }

  function DecodeEntries(ty: Ty, n: nat, piece: seq<byte>, keys: seq<Val>, vals: seq<Val>): Decoded
    requires ty.Dict? && Keyable(ty)
    decreases ty, 0, n
  {
    if n == 0 then Got(C.Entries(keys, vals), piece) else
    match Decode(ty.key, Fresh(ty.key), piece)
    case Short => Short
    case Got(k, rest) =>
      match Decode(ty.value, Fresh(ty.value), rest)
      case Short => Short
      case Got(v, rest) =>
        if k in keys then DecodeEntries(ty, n - 1, rest, keys, vals)
        else DecodeEntries(ty, n - 1, rest, keys + [k], vals + [v])
  }

  /** A bool is a byte; every byte but 0 is true. */
  lemma FlagRead(b: byte, rest: seq<byte>, target: Val)
    requires target.Flag?
    ensures Decode(C.Bool, target, [b] + rest) == Got(C.Flag(b != 0), rest)
  {
    assert ([b] + rest)[1..] == rest;
  }

  // ---- What decoding an encoded value does to a target

  /** Vectors grow, maps keep the entries they have and gain the others, everything else is replaced. */
  function Merge(ty: Ty, target: Val, v: Val): Val
    requires Keyable(ty) && C.Typed(ty, target) && C.Typed(ty, v)
  {
    match ty
    case Scalar(_) => v
    case Bool => v
    case Str => v
    case Pair(x, y) => C.Two(Merge(x, target.a, v.a), Merge(y, target.b2, v.b2))
    case Vec(_) => C.List(target.items + v.items)
    case Dict(_, _) => C.Emplaced(target.keys, target.vals, v.keys, v.vals)
  }

  /** Decoding into a fresh variable gives the value itself. */
  lemma {:induction false} MergeFresh(ty: Ty, v: Val)
    requires Keyable(ty) && C.Typed(ty, v)
    ensures Merge(ty, Fresh(ty), v) == v
  {
    match ty
    case Scalar(_) =>
    case Bool =>
    case Str =>
    case Pair(x, y) =>
      MergeFresh(x, v.a);
      MergeFresh(y, v.b2);
    case Vec(_) => assert [] + v.items == v.items;
    case Dict(_, _) =>
      assert [] + v.keys == v.keys && [] + v.vals == v.vals;
      T.EmplacedDistinct([], [], v.keys, v.vals);
  }

  lemma CountRead(n: nat)
    requires n < C.LENGTHS
    ensures FromBig(Count(n)) == n
  {
    BigRoundTrip(n, 4);
    assert Pow256(0) == 1 && Pow256(1) == 256 && Pow256(2) == 65536 && Pow256(3) == 16777216 && Pow256(4) == C.LENGTHS;
  }

  /** Decoding what was encoded merges it into the target and consumes exactly its bytes. */
  lemma {:induction false} RoundTrip(ty: Ty, target: Val, v: Val, rest: seq<byte>)
    requires Keyable(ty) && C.Typed(ty, target) && C.Typed(ty, v) && C.Short(v)
    ensures Decode(ty, target, Encode(ty, v) + rest) == Got(Merge(ty, target, v), rest)
    decreases ty, 2, 0
  {
    match ty
    case Scalar(_) => ScalarBuffer(ty, target, v, rest);
    case Bool => assert (Encode(ty, v) + rest)[1..] == rest;
    case Str => TextBuffer(target, v, rest);
    case Pair(_, _) => PairRoundTrip(ty, target, v, rest);
    case Vec(_) =>
      ItemsRoundTrip(ty, v.items, rest, target.items);
      VecBuffer(ty, target, v, rest);
    case Dict(_, _) =>
      EntriesRoundTrip(ty, v.keys, v.vals, target.keys, target.vals, rest);
      DictBuffer(ty, target, v, rest);
  }

  lemma ScalarBuffer(ty: Ty, target: Val, v: Val, rest: seq<byte>)
    requires ty.Scalar? && C.Typed(ty, target) && C.Typed(ty, v)
    ensures Decode(ty, target, Encode(ty, v) + rest) == Got(v, rest)
  {
    var n := ty.width.Size();
    BigRoundTrip(v.n, n);
    T.SmallMod(v.n, Pow256(n));
    var buf := Encode(ty, v) + rest;
    assert buf[..n] == ToBig(v.n, n) && buf[n..] == rest;
  }

  lemma TextBuffer(target: Val, v: Val, rest: seq<byte>)
    requires target.Text? && v.Text? && C.Short(v)
    ensures Decode(C.Str, target, Encode(C.Str, v) + rest) == Got(v, rest)
  {
    CountRead(|v.bytes|);
    CountedCut(Count(|v.bytes|), v.bytes, rest);
  }

  lemma {:induction false} PairRoundTrip(ty: Ty, target: Val, v: Val, rest: seq<byte>)
    requires ty.Pair? && Keyable(ty) && C.Typed(ty, target) && C.Typed(ty, v) && C.Short(v)
    ensures Decode(ty, target, Encode(ty, v) + rest) == Got(Merge(ty, target, v), rest)
    decreases ty, 1, 0
  {
    var tail := Encode(ty.second, v.b2) + rest;
    RoundTrip(ty.first, target.a, v.a, tail);
    RoundTrip(ty.second, target.b2, v.b2, rest);
    Regroup(Encode(ty.first, v.a), Encode(ty.second, v.b2), rest);
    PairStep(ty, target, Encode(ty, v) + rest, tail, rest, Merge(ty.first, target.a, v.a), Merge(ty.second, target.b2, v.b2));
  }

  lemma PairStep(ty: Ty, target: Val, buf: seq<byte>, tail: seq<byte>, rest: seq<byte>, a: Val, b: Val)
    requires ty.Pair? && Keyable(ty) && C.Typed(ty, target)
    requires Decode(ty.first, target.a, buf) == Got(a, tail) && Decode(ty.second, target.b2, tail) == Got(b, rest)
    ensures Decode(ty, target, buf) == Got(C.Two(a, b), rest)
  {
  }

  /** Decoding into a fresh target gives the value back. */
  lemma {:induction false} FreshRoundTrip(ty: Ty, v: Val, rest: seq<byte>)
    requires Keyable(ty) && C.Typed(ty, v) && C.Short(v)
    ensures Decode(ty, Fresh(ty), Encode(ty, v) + rest) == Got(v, rest)
    decreases ty, 3, 0
  {
    RoundTrip(ty, Fresh(ty), v, rest);
    MergeFresh(ty, v);
  }

  lemma VecBuffer(ty: Ty, target: Val, v: Val, rest: seq<byte>)
    requires ty.Vec? && Keyable(ty) && C.Typed(ty, target) && C.Typed(ty, v) && |v.items| < C.LENGTHS
    requires DecodeItems(ty, |v.items|, EncodeItems(ty, v.items) + rest, target.items)
          == Got(C.List(target.items + v.items), rest)
    ensures Decode(ty, target, Encode(ty, v) + rest) == Got(Merge(ty, target, v), rest)
  {
    CountRead(|v.items|);
    T.HeaderCut(Count(|v.items|), EncodeItems(ty, v.items), rest);
  }

  lemma DictBuffer(ty: Ty, target: Val, v: Val, rest: seq<byte>)
    requires ty.Dict? && Keyable(ty) && C.Typed(ty, target) && C.Typed(ty, v) && |v.keys| < C.LENGTHS
    requires DecodeEntries(ty, |v.keys|, EncodeEntries(ty, v.keys, v.vals) + rest, target.keys, target.vals)
          == Got(C.Emplaced(target.keys, target.vals, v.keys, v.vals), rest)
    ensures Decode(ty, target, Encode(ty, v) + rest) == Got(Merge(ty, target, v), rest)
  {
    CountRead(|v.keys|);
    T.HeaderCut(Count(|v.keys|), EncodeEntries(ty, v.keys, v.vals), rest);
  }

  predicate AllShort(ty: Ty, vs: seq<Val>) { forall i :: 0 <= i < |vs| ==> C.Typed(ty, vs[i]) && C.Short(vs[i]) }

  lemma ShortTail(ty: Ty, vs: seq<Val>)
    requires AllShort(ty, vs) && vs != []
    ensures AllShort(ty, vs[1..]) && C.Typed(ty, vs[0]) && C.Short(vs[0])
  {
  }

  lemma {:induction false} ItemsRoundTrip(ty: Ty, items: seq<Val>, rest: seq<byte>, acc: seq<Val>)
    requires ty.Vec? && Keyable(ty) && AllShort(ty.elem, items)
    ensures DecodeItems(ty, |items|, EncodeItems(ty, items) + rest, acc) == Got(C.List(acc + items), rest)
    decreases ty, 0, |items|
  {
    if items == [] {
      NoItems(ty, rest, acc);
    } else {
      var tail := EncodeItems(ty, items[1..]) + rest;
      ShortTail(ty.elem, items);
      FreshRoundTrip(ty.elem, items[0], tail);
      ItemsHead(ty, items, rest, tail, acc);
      ItemsRoundTrip(ty, items[1..], rest, acc + [items[0]]);
      AppendHead(acc, items);
    }
  }

  lemma AppendHead(acc: seq<Val>, items: seq<Val>)
    requires items != []
    ensures acc + [items[0]] + items[1..] == acc + items
  {
  }

  lemma NoItems(ty: Ty, rest: seq<byte>, acc: seq<Val>)
    requires ty.Vec? && Keyable(ty)
    ensures DecodeItems(ty, 0, EncodeItems(ty, []) + rest, acc) == Got(C.List(acc + []), rest)
  {
    assert acc + [] == acc && EncodeItems(ty, []) + rest == rest;
  }

  /** The first element is read and appended. */
  lemma ItemsHead(ty: Ty, items: seq<Val>, rest: seq<byte>, tail: seq<byte>, acc: seq<Val>)
    requires ty.Vec? && Keyable(ty) && items != [] && forall i :: 0 <= i < |items| ==> C.Typed(ty.elem, items[i])
    requires tail == EncodeItems(ty, items[1..]) + rest
    requires Decode(ty.elem, Fresh(ty.elem), Encode(ty.elem, items[0]) + tail) == Got(items[0], tail)
    ensures DecodeItems(ty, |items|, EncodeItems(ty, items) + rest, acc)
         == DecodeItems(ty, |items| - 1, tail, acc + [items[0]])
  {
    Regroup(Encode(ty.elem, items[0]), EncodeItems(ty, items[1..]), rest);
    ItemsStep(ty, |items|, EncodeItems(ty, items) + rest, items[0], tail, acc);
  }

  lemma ItemsStep(ty: Ty, n: nat, buf: seq<byte>, v: Val, tail: seq<byte>, acc: seq<Val>)
    requires ty.Vec? && Keyable(ty) && n > 0 && Decode(ty.elem, Fresh(ty.elem), buf) == Got(v, tail)
    ensures DecodeItems(ty, n, buf, acc) == DecodeItems(ty, n - 1, tail, acc + [v])
  {
  }

  lemma {:induction false} EntriesRoundTrip(ty: Ty, keys: seq<Val>, vals: seq<Val>,
                                            accKeys: seq<Val>, accVals: seq<Val>, rest: seq<byte>)
    requires ty.Dict? && Keyable(ty) && |keys| == |vals|
    requires AllShort(ty.key, keys) && AllShort(ty.value, vals)
    ensures DecodeEntries(ty, |keys|, EncodeEntries(ty, keys, vals) + rest, accKeys, accVals)
         == Got(C.Emplaced(accKeys, accVals, keys, vals), rest)
    decreases ty, 0, |keys|
  {
    if keys == [] {
      assert EncodeEntries(ty, keys, vals) + rest == rest;
    } else {
      var tail := EncodeEntries(ty, keys[1..], vals[1..]) + rest;
      ShortTail(ty.key, keys);
      ShortTail(ty.value, vals);
      FreshRoundTrip(ty.value, vals[0], tail);
      FreshRoundTrip(ty.key, keys[0], Encode(ty.value, vals[0]) + tail);
      EntriesHead(ty, keys, vals, rest, tail, accKeys, accVals);
      if keys[0] in accKeys {
        EntriesRoundTrip(ty, keys[1..], vals[1..], accKeys, accVals, rest);
      } else {
        EntriesRoundTrip(ty, keys[1..], vals[1..], accKeys + [keys[0]], accVals + [vals[0]], rest);
      }
    }
  }

  /** The first entry is read and emplaced. */
  lemma EntriesHead(ty: Ty, keys: seq<Val>, vals: seq<Val>, rest: seq<byte>, tail: seq<byte>,
                    accKeys: seq<Val>, accVals: seq<Val>)
    requires ty.Dict? && Keyable(ty) && |keys| == |vals| && keys != []
    requires forall j :: 0 <= j < |keys| ==> C.Typed(ty.key, keys[j])
    requires forall j :: 0 <= j < |vals| ==> C.Typed(ty.value, vals[j])
    requires tail == EncodeEntries(ty, keys[1..], vals[1..]) + rest
    requires Decode(ty.value, Fresh(ty.value), Encode(ty.value, vals[0]) + tail) == Got(vals[0], tail)
    requires Decode(ty.key, Fresh(ty.key), Encode(ty.key, keys[0]) + (Encode(ty.value, vals[0]) + tail))
          == Got(keys[0], Encode(ty.value, vals[0]) + tail)
    ensures DecodeEntries(ty, |keys|, EncodeEntries(ty, keys, vals) + rest, accKeys, accVals)
         == if keys[0] in accKeys then DecodeEntries(ty, |keys| - 1, tail, accKeys, accVals)
            else DecodeEntries(ty, |keys| - 1, tail, accKeys + [keys[0]], accVals + [vals[0]])
  {
    EntriesSplit(ty, keys, vals, rest);
    EntriesStep(ty, |keys|, EncodeEntries(ty, keys, vals) + rest, keys[0], vals[0], tail, accKeys, accVals);
  }

  lemma EntriesSplit(ty: Ty, keys: seq<Val>, vals: seq<Val>, rest: seq<byte>)
    requires ty.Dict? && Keyable(ty) && |keys| == |vals| && keys != []
    requires forall j :: 0 <= j < |keys| ==> C.Typed(ty.key, keys[j])
    requires forall j :: 0 <= j < |vals| ==> C.Typed(ty.value, vals[j])
    ensures EncodeEntries(ty, keys, vals) + rest
         == Encode(ty.key, keys[0]) + (Encode(ty.value, vals[0]) + (EncodeEntries(ty, keys[1..], vals[1..]) + rest))
  {
  }

  lemma EntriesStep(ty: Ty, n: nat, buf: seq<byte>, k: Val, v: Val, tail: seq<byte>, accKeys: seq<Val>, accVals: seq<Val>)
    requires ty.Dict? && Keyable(ty) && n > 0
    requires var r := Decode(ty.key, Fresh(ty.key), buf);
             r.Got? && r.v == k && Decode(ty.value, Fresh(ty.value), r.rest) == Got(v, tail)
    ensures DecodeEntries(ty, n, buf, accKeys, accVals)
         == if k in accKeys then DecodeEntries(ty, n - 1, tail, accKeys, accVals)
            else DecodeEntries(ty, n - 1, tail, accKeys + [k], accVals + [v])
  {
  }

  // ---- Lengths are cast to 32 bits

  lemma CountBelow(piece: seq<byte>)
    requires |piece| >= 4
    ensures FromBig(piece[..4]) < C.LENGTHS
  {
    FromBigFits(piece[..4]);
    assert Pow256(0) == 1 && Pow256(1) == 256 && Pow256(2) == 65536 && Pow256(3) == 16777216 && Pow256(4) == C.LENGTHS;
  }

  /** What a fresh target receives, from any bytes, is a value of the type whose lengths fit 32 bits. */
  lemma {:induction false} ReadTyped(ty: Ty, piece: seq<byte>)
    requires Keyable(ty)
    ensures var r := Decode(ty, Fresh(ty), piece); r.Got? ==> C.Typed(ty, r.v) && C.Short(r.v)
    decreases ty, 1, 0
  {
    match ty
    case Scalar(w) => if |piece| >= w.Size() { FromBigFits(piece[..w.Size()]); }
    case Bool =>
    case Str => if |piece| >= 4 { CountBelow(piece); }
    case Pair(x, y) =>
      ReadTyped(x, piece);
      var a := Decode(x, Fresh(x), piece);
      if a.Got? { ReadTyped(y, a.rest); }
    case Vec(_) =>
      if |piece| >= 4 {
        CountBelow(piece);
        ItemsTyped(ty, FromBig(piece[..4]), piece[4..], []);
      }
    case Dict(_, _) =>
      if |piece| >= 4 {
        CountBelow(piece);
        EntriesTyped(ty, FromBig(piece[..4]), piece[4..], [], []);
      }
  }

  lemma {:induction false} ItemsTyped(ty: Ty, n: nat, piece: seq<byte>, acc: seq<Val>)
    requires ty.Vec? && Keyable(ty) && |acc| + n < C.LENGTHS && AllShort(ty.elem, acc)
    ensures var r := DecodeItems(ty, n, piece, acc); r.Got? ==> C.Typed(ty, r.v) && C.Short(r.v)
    decreases ty, 0, n
  {
    if n > 0 {
      ReadTyped(ty.elem, piece);
      var r := Decode(ty.elem, Fresh(ty.elem), piece);
      if r.Got? {
        ItemsTyped(ty, n - 1, r.rest, acc + [r.v]);
      }
    }
  }

  lemma {:induction false} EntriesTyped(ty: Ty, n: nat, piece: seq<byte>, keys: seq<Val>, vals: seq<Val>)
    requires ty.Dict? && Keyable(ty) && |keys| == |vals| && |keys| + n < C.LENGTHS && C.Distinct(keys)
    requires AllShort(ty.key, keys) && AllShort(ty.value, vals)
    ensures var r := DecodeEntries(ty, n, piece, keys, vals); r.Got? ==> C.Typed(ty, r.v) && C.Short(r.v)
    decreases ty, 0, n
  {
    if n > 0 {
      ReadTyped(ty.key, piece);
      var k := Decode(ty.key, Fresh(ty.key), piece);
      if k.Got? {
        ReadTyped(ty.value, k.rest);
        var v := Decode(ty.value, Fresh(ty.value), k.rest);
        if v.Got? && k.v in keys {
          EntriesTyped(ty, n - 1, v.rest, keys, vals);
        } else if v.Got? {
          EntriesTyped(ty, n - 1, v.rest, keys + [k.v], vals + [v.v]);
        }
      }
    }
  }

  /** A fresh variable receives exactly the values whose lengths fit 32 bits. */
  lemma RoundTripIff(ty: Ty, v: Val, rest: seq<byte>)
    requires Keyable(ty) && C.Typed(ty, v)
    ensures Decode(ty, Fresh(ty), Encode(ty, v) + rest) == Got(v, rest) <==> C.Short(v)
  {
    if C.Short(v) {
      FreshRoundTrip(ty, v, rest);
    }
    ReadTyped(ty, Encode(ty, v) + rest);
  }

  // ---- Chains of calls

  predicate ChainTyped(tys: seq<Ty>, vs: seq<Val>) {
    |tys| == |vs| && forall i :: 0 <= i < |tys| ==> Keyable(tys[i]) && C.Typed(tys[i], vs[i])
  }

  function EncodeChain(tys: seq<Ty>, vs: seq<Val>): seq<byte>
    requires ChainTyped(tys, vs)
  {
    if tys == [] then [] else Encode(tys[0], vs[0]) + EncodeChain(tys[1..], vs[1..])
  }

  datatype ChainResult = Values(vs: seq<Val>, rest: seq<byte>) | Exhausted

  function DecodeChain(tys: seq<Ty>, targets: seq<Val>, piece: seq<byte>): ChainResult
    requires ChainTyped(tys, targets)
  {
    if tys == [] then Values([], piece) else
    match Decode(tys[0], targets[0], piece)
    case Short => Exhausted
    case Got(v, rest) =>
      match DecodeChain(tys[1..], targets[1..], rest)
      case Exhausted => Exhausted
      case Values(vs, rest) => Values([v] + vs, rest)
  }

  /** Decoding a chain with the same types merges every value into its target, in order, and stops
      exactly after the bytes written. */
  lemma {:induction false} ChainRoundTrip(tys: seq<Ty>, targets: seq<Val>, vs: seq<Val>, rest: seq<byte>)
    requires ChainTyped(tys, targets) && ChainTyped(tys, vs) && forall i :: 0 <= i < |vs| ==> C.Short(vs[i])
    ensures var r := DecodeChain(tys, targets, EncodeChain(tys, vs) + rest);
            && r.Values? && r.rest == rest && |r.vs| == |vs|
            && forall i :: 0 <= i < |vs| ==> r.vs[i] == Merge(tys[i], targets[i], vs[i])
  {
    if tys == [] {
      assert EncodeChain(tys, vs) + rest == rest;
    } else {
      var tail := EncodeChain(tys[1..], vs[1..]) + rest;
      RoundTrip(tys[0], targets[0], vs[0], tail);
      Regroup(Encode(tys[0], vs[0]), EncodeChain(tys[1..], vs[1..]), rest);
      ChainRoundTrip(tys[1..], targets[1..], vs[1..], rest);
      ChainStep(tys, targets, EncodeChain(tys, vs) + rest, Merge(tys[0], targets[0], vs[0]), tail);
    }
  }

  lemma ChainStep(tys: seq<Ty>, targets: seq<Val>, buf: seq<byte>, v: Val, tail: seq<byte>)
    requires ChainTyped(tys, targets) && tys != [] && Decode(tys[0], targets[0], buf) == Got(v, tail)
    requires DecodeChain(tys[1..], targets[1..], tail).Values?
    ensures var r := DecodeChain(tys[1..], targets[1..], tail);
            DecodeChain(tys, targets, buf) == Values([v] + r.vs, r.rest)
  {
  }

  // ---- Order

  /** Unsigned integers of one width compare as their encodings do. */
  lemma UnsignedOrder(w: C.Width, x: nat, y: nat)
    requires x < Pow256(w.Size()) && y < Pow256(w.Size())
    ensures x < y <==> LexLess(Encode(C.Scalar(w), C.Num(x)), Encode(C.Scalar(w), C.Num(y)))
  {
    BigOrder(x, y, w.Size());
  }

  /** `x` is a signed integer of this width. */
  predicate Signed(w: C.Width, x: int) { 0 <= 2 * x + Pow256(w.Size()) && 2 * x < Pow256(w.Size()) }

  /** The memory image of a signed integer. */
  function TwosComplement(w: C.Width, x: int): (n: nat)
    requires Signed(w, x)
    ensures n < Pow256(w.Size())
  {
    if x < 0 then x + Pow256(w.Size()) else x
  }

  /** Signed integers compare as their encodings do exactly when their signs agree. */
  lemma SignedOrder(w: C.Width, x: int, y: int)
    requires Signed(w, x) && Signed(w, y)
    ensures (x < y <==> LexLess(Encode(C.Scalar(w), C.Num(TwosComplement(w, x))),
                                Encode(C.Scalar(w), C.Num(TwosComplement(w, y)))))
            <==> (x < 0 <==> y < 0)
  {
    BigOrder(TwosComplement(w, x), TwosComplement(w, y), w.Size());
  }

  // ---- The encoder and decoder objects

  class KVEncoder {
    var resultStr: seq<byte>

    constructor ()
      ensures resultStr == []
    {
      resultStr := [];
    }

    method Put(ty: Ty, v: Val)
      requires Keyable(ty) && C.Typed(ty, v)
      modifies this
      ensures resultStr == old(resultStr) + Encode(ty, v)
      decreases ty, 1, 0
    {
      match ty
      case Scalar(w) => resultStr := resultStr + ToBig(v.n, w.Size());
      case Bool => resultStr := resultStr + [if v.b then 1 else 0];
      case Str =>
        resultStr := resultStr + Count(|v.bytes|);
        resultStr := resultStr + v.bytes;
        Regroup(old(resultStr), Count(|v.bytes|), v.bytes);
      case Pair(x, y) =>
        Put(x, v.a);
        Put(y, v.b2);
        Regroup(old(resultStr), Encode(x, v.a), Encode(y, v.b2));
      case Vec(_) =>
        resultStr := resultStr + Count(|v.items|);
        PutItems(ty, v.items);
        Regroup(old(resultStr), Count(|v.items|), EncodeItems(ty, v.items));
      case Dict(_, _) =>
        resultStr := resultStr + Count(|v.keys|);
        PutEntries(ty, v.keys, v.vals);
        Regroup(old(resultStr), Count(|v.keys|), EncodeEntries(ty, v.keys, v.vals));
    }

    method PutItems(ty: Ty, items: seq<Val>)
      requires ty.Vec? && Keyable(ty) && forall i :: 0 <= i < |items| ==> C.Typed(ty.elem, items[i])
      modifies this
      ensures resultStr == old(resultStr) + EncodeItems(ty, items)
      decreases ty, 0, |items|
    {
      var i := 0;
      assert items[0..] == items;
      while i < |items|
        invariant 0 <= i <= |items|
        invariant resultStr + EncodeItems(ty, items[i..]) == old(resultStr) + EncodeItems(ty, items)
      {
        ghost var before, tail := resultStr, EncodeItems(ty, items[i + 1..]);
        assert items[i..][1..] == items[i + 1..];
        Put(ty.elem, items[i]);
        Regroup(before, Encode(ty.elem, items[i]), tail);
        i := i + 1;
      }
      assert items[i..] == [] && resultStr + [] == resultStr;
    }

    method PutEntries(ty: Ty, keys: seq<Val>, vals: seq<Val>)
      requires ty.Dict? && Keyable(ty) && |keys| == |vals|
      requires forall i :: 0 <= i < |keys| ==> C.Typed(ty.key, keys[i])
      requires forall i :: 0 <= i < |vals| ==> C.Typed(ty.value, vals[i])
      modifies this
      ensures resultStr == old(resultStr) + EncodeEntries(ty, keys, vals)
      decreases ty, 0, |keys|
    {
      var i := 0;
      assert keys[0..] == keys && vals[0..] == vals;
      while i < |keys|
        invariant 0 <= i <= |keys|
        invariant resultStr + EncodeEntries(ty, keys[i..], vals[i..]) == old(resultStr) + EncodeEntries(ty, keys, vals)
      {
        ghost var before, tail := resultStr, EncodeEntries(ty, keys[i + 1..], vals[i + 1..]);
        assert keys[i..][1..] == keys[i + 1..] && vals[i..][1..] == vals[i + 1..];
        Put(ty.key, keys[i]);
        Put(ty.value, vals[i]);
        Regroup(before, Encode(ty.key, keys[i]), Encode(ty.value, vals[i]));
        Regroup(before, Encode(ty.key, keys[i]) + Encode(ty.value, vals[i]), tail);
        i := i + 1;
      }
      assert keys[i..] == [] && resultStr + [] == resultStr;
    }
  }

  class KVDecoder {
    var piece: seq<byte>

    constructor (piece: seq<byte>)
      ensures this.piece == piece
    {
      this.piece := piece;
    }

    /** Agrees with the value-level decoder, up to what is left of the input when it runs out. */
    ghost predicate Agrees(r: Decoded, ok: bool, v: Val)
      reads this
    {
      ok == r.Got? && (ok ==> v == r.v && piece == r.rest)
    }

    method Take(n: nat) returns (ok: bool, bs: seq<byte>)
      modifies this
      ensures ok <==> n <= |old(piece)|
      ensures ok ==> bs == old(piece)[..n] && piece == old(piece)[n..]
    {
      if |piece| < n {
        return false, [];
      }
      bs, piece := piece[..n], piece[n..];
      ok := true;
    }

    method Get(ty: Ty, target: Val) returns (ok: bool, v: Val)
      requires Keyable(ty) && C.Typed(ty, target)
      modifies this
      ensures Agrees(old(Decode(ty, target, piece)), ok, v)
      decreases ty, 1, 0
    {
      v := target;
      var bs;
      match ty
      case Scalar(w) =>
        ok, bs := Take(w.Size());
        if ok { v := C.Num(FromBig(bs)); }
      case Bool =>
        ok, bs := Take(1);
        if ok { v := C.Flag(bs[0] != 0); }
      case Str =>
        ok, bs := Take(4);
        if ok {
          var n := FromBig(bs);
          ok, bs := Take(n);
          v := C.Text(bs);
        }
      case Pair(x, y) =>
        var a, b;
        ok, a := Get(x, target.a);
        if ok {
          ok, b := Get(y, target.b2);
          v := C.Two(a, b);
        }
      case Vec(_) =>
        ok, bs := Take(4);
        if ok { ok, v := GetItems(ty, FromBig(bs), target.items); }
      case Dict(_, _) =>
        ok, bs := Take(4);
        if ok { ok, v := GetEntries(ty, FromBig(bs), target.keys, target.vals); }
    }

    method GetItems(ty: Ty, n: nat, target: seq<Val>) returns (ok: bool, v: Val)
      requires ty.Vec? && Keyable(ty)
      modifies this
      ensures Agrees(old(DecodeItems(ty, n, piece, target)), ok, v)
      decreases ty, 0, n
    {
      var items := target;
      var i := 0;
      while i < n
        invariant 0 <= i <= n
        invariant DecodeItems(ty, n - i, piece, items) == old(DecodeItems(ty, n, piece, target))
      {
        ok, v := Get(ty.elem, Fresh(ty.elem));
        if !ok {
          return;
        }
        items := items + [v];
        i := i + 1;
      }
      return true, C.List(items);
    }

    method GetEntries(ty: Ty, n: nat, keys0: seq<Val>, vals0: seq<Val>) returns (ok: bool, v: Val)
      requires ty.Dict? && Keyable(ty)
      modifies this
      ensures Agrees(old(DecodeEntries(ty, n, piece, keys0, vals0)), ok, v)
      decreases ty, 0, n
    {
      var keys, vals := keys0, vals0;
      var i := 0;
      while i < n
        invariant 0 <= i <= n
        invariant DecodeEntries(ty, n - i, piece, keys, vals) == old(DecodeEntries(ty, n, piece, keys0, vals0))
      {
        var k;
        ok, k := Get(ty.key, Fresh(ty.key));
        if !ok {
          return ok, k;
        }
        ok, v := Get(ty.value, Fresh(ty.value));
        if !ok {
          return;
        }
        if k !in keys {
          keys, vals := keys + [k], vals + [v];
        }
        i := i + 1;
      }
      return true, C.Entries(keys, vals);
    }
  }
}
