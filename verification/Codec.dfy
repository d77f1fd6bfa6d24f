/** The wire format of BufferReaderWriter: what is written for a value of each type, and what reading
    it back does. */
module Codec {
  import opened Arithmetic
  import opened Bytes

  /** Sizes of the scalar types. */
  datatype Width = W1 | W2 | W4 | W8 {
    function Size(): (n: nat)
      ensures n > 0
    {
      match this case W1 => 1 case W2 => 2 case W4 => 4 case W8 => 8
    }
  }

  datatype Ty =
    | Scalar(width: Width)
    | Bool
    | Str
    | Opt(of: Ty)
    | Pair(first: Ty, second: Ty)
    | Tuple(parts: seq<Ty>)
    | Vec(elem: Ty)
    | Dict(key: Ty, value: Ty)  // std::map and std::unordered_map

  /** A scalar is its memory image read as an unsigned number. A map is its entries in iteration order. */
  datatype Val =
    | Num(n: nat)
    | Flag(b: bool)
    | Text(bytes: seq<byte>)
    | Absent
    | Present(v: Val)
    | Two(a: Val, b2: Val)
    | Parts(parts: seq<Val>)
    | List(items: seq<Val>)
    | Entries(keys: seq<Val>, vals: seq<Val>)

  const LENGTHS := 0x1_0000_0000

  predicate Distinct(keys: seq<Val>) { forall i, j :: 0 <= i < j < |keys| ==> keys[i] != keys[j] }

  /** `v` is a value of type `ty`. */
  predicate Typed(ty: Ty, v: Val)
    decreases ty
  {
    match ty
    case Scalar(w) => v.Num? && v.n < Pow256(w.Size())
    case Bool => v.Flag?
    case Str => v.Text?
    case Opt(of) => v.Absent? || (v.Present? && Typed(of, v.v))
    case Pair(x, y) => v.Two? && Typed(x, v.a) && Typed(y, v.b2)
    case Tuple(tys) => v.Parts? && |v.parts| == |tys| && forall i :: 0 <= i < |tys| ==> Typed(tys[i], v.parts[i])
    case Vec(e) => v.List? && forall i :: 0 <= i < |v.items| ==> Typed(e, v.items[i])
    case Dict(k, x) =>
      && v.Entries? && |v.keys| == |v.vals| && Distinct(v.keys)
      && (forall i :: 0 <= i < |v.keys| ==> Typed(k, v.keys[i]))
      && (forall i :: 0 <= i < |v.vals| ==> Typed(x, v.vals[i]))
  }

  /** Every string, vector and map in `v` is short enough for its 32-bit length. */
  predicate Short(v: Val) {
    match v
    case Num(_) => true
    case Flag(_) => true
    case Absent => true
    case Text(bs) => |bs| < LENGTHS
    case Present(x) => Short(x)
    case Two(a, b) => Short(a) && Short(b)
    case Parts(vs) => forall i :: 0 <= i < |vs| ==> Short(vs[i])
    case List(vs) => |vs| < LENGTHS && forall i :: 0 <= i < |vs| ==> Short(vs[i])
    case Entries(ks, vs) =>
      && |ks| < LENGTHS
      && (forall i :: 0 <= i < |ks| ==> Short(ks[i])) && (forall i :: 0 <= i < |vs| ==> Short(vs[i]))
  }

  // ---- Writing

  predicate Trivial(ty: Ty) { ty.Scalar? || ty.Bool? }

  function TrivialSize(ty: Ty): (n: nat)
    requires Trivial(ty)
    ensures n > 0
  {
    if ty.Scalar? then ty.width.Size() else 1
  }

  function Image(ty: Ty, v: Val): (bs: seq<byte>)
    requires Trivial(ty) && Typed(ty, v)
    ensures |bs| == TrivialSize(ty)
  {
    if ty.Scalar? then ToLittle(v.n, ty.width.Size()) else [if v.b then 1 else 0]
  }

  function Count(n: nat): seq<byte> { ToLittle(n, 4) }

  /** The memory of an array of scalars: byte k is byte k % size of element k / size. */
  function ArrayImage(ty: Ty, items: seq<Val>): seq<byte>
    requires Trivial(ty) && forall i :: 0 <= i < |items| ==> Typed(ty, items[i])
  {
    var size := TrivialSize(ty);
    seq(|items| * size, k requires 0 <= k < |items| * size =>
      ElementOf(k, size, |items|); Image(ty, items[k / size])[k % size])
  }

  lemma ElementOf(k: nat, size: nat, n: nat)
    requires size > 0 && k < n * size
    ensures 0 <= k / size < n && 0 <= k % size < size
  {
    if k / size >= n {
      MulMono(n, k / size, size);
    }
  }

  function Encode(ty: Ty, v: Val): seq<byte>
    requires Typed(ty, v)
    decreases ty, 1, 0
  {
    match ty
    case Scalar(_) => Image(ty, v)
    case Bool => Image(ty, v)
    case Str => Count(|v.bytes|) + v.bytes
    case Opt(of) => if v.Absent? then [0] else [1] + Encode(of, v.v)
    case Pair(x, y) => Encode(x, v.a) + Encode(y, v.b2)
    case Tuple(tys) => EncodeParts(tys, v.parts)
    case Vec(e) => Count(|v.items|) + if Trivial(e) then ArrayImage(e, v.items) else EncodeItems(ty, v.items)
    case Dict(_, _) => Count(|v.keys|) + EncodeEntries(ty, v.keys, v.vals)
  }

  function EncodeParts(tys: seq<Ty>, vs: seq<Val>): seq<byte>
    requires |tys| == |vs| && forall i :: 0 <= i < |tys| ==> Typed(tys[i], vs[i])
    decreases tys, 0, 0
  {
    if tys == [] then [] else Encode(tys[0], vs[0]) + EncodeParts(tys[1..], vs[1..])
  }

  function EncodeItems(ty: Ty, items: seq<Val>): seq<byte>
    requires ty.Vec? && forall i :: 0 <= i < |items| ==> Typed(ty.elem, items[i])
    decreases ty, 0, |items|
  {
    if items == [] then [] else Encode(ty.elem, items[0]) + EncodeItems(ty, items[1..])
  }

  function EncodeEntries(ty: Ty, keys: seq<Val>, vals: seq<Val>): seq<byte>
    requires ty.Dict? && |keys| == |vals|
    requires forall i :: 0 <= i < |keys| ==> Typed(ty.key, keys[i])
    requires forall i :: 0 <= i < |vals| ==> Typed(ty.value, vals[i])
    decreases ty, 0, |keys|
  {
    if keys == [] then [] else
    Encode(ty.key, keys[0]) + Encode(ty.value, vals[0]) + EncodeEntries(ty, keys[1..], vals[1..])
  }

  // ---- Reading: the value, or a failure, and what is left in the buffer

  datatype Read = Ok(v: Val, rest: seq<byte>) | Fail(rest: seq<byte>)

  function DecodeTrivial(ty: Ty, buf: seq<byte>): Val
    requires Trivial(ty) && |buf| == TrivialSize(ty)
  {
    if ty.Scalar? then Num(FromLittle(buf)) else Flag(buf[0] != 0)
  }

  /** All elements of a scalar vector at once. */
  function DecodeBulk(ty: Ty, n: nat, buf: seq<byte>): Read
    requires Trivial(ty)
  {
    if |buf| < n * TrivialSize(ty) then Fail(buf) else Ok(List(BulkItems(ty, n, buf)), buf[n * TrivialSize(ty)..])
  }

  function BulkItems(ty: Ty, n: nat, buf: seq<byte>): seq<Val>
    requires Trivial(ty) && |buf| >= n * TrivialSize(ty)
  {
    seq(n, i requires 0 <= i < n => Slot(i, TrivialSize(ty), n); BulkItem(ty, buf, i * TrivialSize(ty)))
  }

  function BulkItem(ty: Ty, buf: seq<byte>, from: nat): Val
    requires Trivial(ty) && from + TrivialSize(ty) <= |buf|
  {
    DecodeTrivial(ty, buf[from..from + TrivialSize(ty)])
  }

  lemma Slot(i: nat, size: nat, n: nat)
    requires i < n
    ensures i * size + size <= n * size
  {
    MulMono(i + 1, n, size);
    assert (i + 1) * size == i * size + size;
  }

  function Decode(ty: Ty, buf: seq<byte>): Read
    decreases ty, 1, 0
  {
    match ty
    case Scalar(_) =>
      var size := TrivialSize(ty);
      if |buf| < size then Fail(buf) else Ok(DecodeTrivial(ty, buf[..size]), buf[size..])
    case Bool => if |buf| < 1 then Fail(buf) else Ok(DecodeTrivial(ty, buf[..1]), buf[1..])
    case Str =>
      if |buf| < 4 then Fail(buf) else
      var n := FromLittle(buf[..4]);
      if |buf| - 4 < n then Fail(buf[4..]) else Ok(Text(buf[4..4 + n]), buf[4 + n..])
    case Opt(of) =>
      if |buf| < 1 then Fail(buf) else
      if buf[0] == 0 then Ok(Absent, buf[1..]) else
      (match Decode(of, buf[1..])
       case Fail(rest) => Fail(rest)
       case Ok(v, rest) => Ok(Present(v), rest))
    case Pair(x, y) =>
      (match Decode(x, buf)
       case Fail(rest) => Fail(rest)
       case Ok(a, rest) =>
         match Decode(y, rest)
         case Fail(rest) => Fail(rest)
         case Ok(b, rest) => Ok(Two(a, b), rest))
    case Tuple(tys) => DecodeParts(tys, buf, [])
    case Vec(e) =>
      if |buf| < 4 then Fail(buf) else
      var n := FromLittle(buf[..4]);
      if Trivial(e) then DecodeBulk(e, n, buf[4..]) else DecodeItems(ty, n, buf[4..], [])
    case Dict(_, _) =>
      if |buf| < 4 then Fail(buf) else DecodeEntries(ty, FromLittle(buf[..4]), buf[4..], [], [])
  }

  function DecodeParts(tys: seq<Ty>, buf: seq<byte>, acc: seq<Val>): Read
    decreases tys, 0, 0
  {
    if tys == [] then Ok(Parts(acc), buf) else
    match Decode(tys[0], buf)
    case Fail(rest) => Fail(rest)
    case Ok(v, rest) => DecodeParts(tys[1..], rest, acc + [v])
  }

  function DecodeItems(ty: Ty, n: nat, buf: seq<byte>, acc: seq<Val>): Read
    requires ty.Vec?
    decreases ty, 0, n
  {
    if n == 0 then Ok(List(acc), buf) else
    match Decode(ty.elem, buf)
    case Fail(rest) => Fail(rest)
    case Ok(v, rest) => DecodeItems(ty, n - 1, rest, acc + [v])
  }

  /** A key that is already there keeps its first value. */
  function DecodeEntries(ty: Ty, n: nat, buf: seq<byte>, keys: seq<Val>, vals: seq<Val>): Read
    requires ty.Dict?
    decreases ty, 0, n
  {
    if n == 0 then Ok(Entries(keys, vals), buf) else
    match Decode(ty.key, buf)
    case Fail(rest) => Fail(rest)
    case Ok(k, rest) =>
      match Decode(ty.value, rest)
      case Fail(rest) => Fail(rest)
      case Ok(v, rest) =>
        if k in keys then DecodeEntries(ty, n - 1, rest, keys, vals)
        else DecodeEntries(ty, n - 1, rest, keys + [k], vals + [v])
  }

  /** A map with new entries emplaced one by one: a key that is already there keeps its value. */
  function Emplaced(keys: seq<Val>, vals: seq<Val>, newKeys: seq<Val>, newVals: seq<Val>): Val
    requires |newKeys| == |newVals|
    decreases |newKeys|
  {
    if newKeys == [] then Entries(keys, vals)
    else if newKeys[0] in keys then Emplaced(keys, vals, newKeys[1..], newVals[1..])
    else Emplaced(keys + [newKeys[0]], vals + [newVals[0]], newKeys[1..], newVals[1..])
  }

  // ---- The memcpy paths agree with the element loops

  lemma {:induction false} ArrayImageLoop(ty: Ty, items: seq<Val>)
    requires ty.Vec? && Trivial(ty.elem) && forall i :: 0 <= i < |items| ==> Typed(ty.elem, items[i])
    ensures ArrayImage(ty.elem, items) == EncodeItems(ty, items)
  {
    if items != [] {
      ArrayImageLoop(ty, items[1..]);
      ArrayImageStep(ty.elem, items);
    } else {
      assert ArrayImage(ty.elem, items) == [];
    }
  }

  /** An array starts with its first element. */
  lemma ArrayImageStep(ty: Ty, items: seq<Val>)
    requires Trivial(ty) && items != [] && forall i :: 0 <= i < |items| ==> Typed(ty, items[i])
    ensures ArrayImage(ty, items) == Image(ty, items[0]) + ArrayImage(ty, items[1..])
  {
    var size, whole := TrivialSize(ty), ArrayImage(ty, items);
    var head, tail := Image(ty, items[0]), ArrayImage(ty, items[1..]);
    OneMore(size, |items[1..]|);
    forall k | 0 <= k < size ensures k < |whole| && whole[k] == head[k] {
      ImageAt(ty, items, k, 0, k);
    }
    forall k | 0 <= k < |tail| ensures size + k < |whole| && whole[size + k] == tail[k] {
      DivModIs(k, size);
      ElementOf(k, size, |items[1..]|);
      LaterByte(ty, items, k, k / size, k % size);
    }
    JoinedBytes(whole, head, tail);
  }

  lemma JoinedBytes(whole: seq<byte>, head: seq<byte>, tail: seq<byte>)
    requires |whole| == |head| + |tail|
    requires (forall k :: 0 <= k < |head| ==> whole[k] == head[k]) && forall k :: 0 <= k < |tail| ==> whole[|head| + k] == tail[k]
    ensures whole == head + tail
  {
    forall k | 0 <= k < |whole| ensures whole[k] == (head + tail)[k] {
      if k >= |head| {
        assert whole[|head| + (k - |head|)] == tail[k - |head|];
      }
    }
  }

  /** Byte k is byte r of element i. */
  lemma ImageAt(ty: Ty, items: seq<Val>, k: nat, i: nat, r: nat)
    requires Trivial(ty) && forall i :: 0 <= i < |items| ==> Typed(ty, items[i])
    requires k == TrivialSize(ty) * i + r && r < TrivialSize(ty) && i < |items|
    ensures k < |ArrayImage(ty, items)| && ArrayImage(ty, items)[k] == Image(ty, items[i])[r]
  {
    var size := TrivialSize(ty);
    MulMono(i + 1, |items|, size);
    OneMore(size, i);
    DivModUnique(k, size, i, r);
  }

  /** Behind the first element comes the array of the others. */
  lemma LaterByte(ty: Ty, items: seq<Val>, k: nat, i: nat, r: nat)
    requires Trivial(ty) && items != [] && forall i :: 0 <= i < |items| ==> Typed(ty, items[i])
    requires k == TrivialSize(ty) * i + r && r < TrivialSize(ty) && i < |items| - 1
    ensures TrivialSize(ty) + k < |ArrayImage(ty, items)| && k < |ArrayImage(ty, items[1..])|
    ensures ArrayImage(ty, items)[TrivialSize(ty) + k] == ArrayImage(ty, items[1..])[k]
  {
    OneMore(TrivialSize(ty), i);
    ImageAt(ty, items, TrivialSize(ty) + k, i + 1, r);
    ImageAt(ty, items[1..], k, i, r);
  }

  /** What both reads of a scalar vector agree on: the value and the rest, or that there is a failure. */
  predicate SameRead(a: Read, b: Read) { a == b || (a.Fail? && b.Fail?) }

  /** DecodeBulk continued from elements already read. */
  function Prepend(acc: seq<Val>, r: Read): Read
    requires r.Ok? ==> r.v.List?
  {
    if r.Ok? then Ok(List(acc + r.v.items), r.rest) else r
  }

  lemma {:induction false} BulkLoop(ty: Ty, n: nat, buf: seq<byte>, acc: seq<Val>)
    requires ty.Vec? && Trivial(ty.elem)
    ensures SameRead(Prepend(acc, DecodeBulk(ty.elem, n, buf)), DecodeItems(ty, n, buf, acc))
    decreases n
  {
    var size := TrivialSize(ty.elem);
    if n == 0 {
      assert n * size == 0 && BulkItems(ty.elem, 0, buf) == [];
      assert acc + [] == acc;
    } else if |buf| < size {
      MulMono(1, n, size);
    } else {
      var head, rest := DecodeTrivial(ty.elem, buf[..size]), buf[size..];
      assert Decode(ty.elem, buf) == Ok(head, rest);
      BulkLoop(ty, n - 1, rest, acc + [head]);
      assert n * size == size + (n - 1) * size;
      if |buf| >= n * size {
        BulkStep(ty.elem, n, buf);
        var tail := BulkItems(ty.elem, n - 1, rest);
        assert acc + ([head] + tail) == acc + [head] + tail;
        assert buf[n * size..] == rest[(n - 1) * size..];
      }
    }
  }

  lemma BulkStep(ty: Ty, n: nat, buf: seq<byte>)
    requires Trivial(ty) && n > 0 && |buf| >= n * TrivialSize(ty)
    ensures var size := TrivialSize(ty);
            && |buf| >= size && |buf[size..]| >= (n - 1) * size
            && BulkItems(ty, n, buf) == [DecodeTrivial(ty, buf[..size])] + BulkItems(ty, n - 1, buf[size..])
  {
    var size := TrivialSize(ty);
    assert n * size == size + (n - 1) * size;
    MulMono(0, n - 1, size);
    var whole, tail := BulkItems(ty, n, buf), BulkItems(ty, n - 1, buf[size..]);
    forall i | 1 <= i < n ensures whole[i] == tail[i - 1] {
      BulkShift(ty, n, buf, i);
    }
    assert whole[0] == BulkItem(ty, buf, 0);
  }

  lemma BulkShift(ty: Ty, n: nat, buf: seq<byte>, i: nat)
    requires Trivial(ty) && 1 <= i < n && |buf| >= n * TrivialSize(ty) && |buf| >= TrivialSize(ty)
    requires |buf[TrivialSize(ty)..]| >= (n - 1) * TrivialSize(ty)
    ensures BulkItems(ty, n, buf)[i] == BulkItems(ty, n - 1, buf[TrivialSize(ty)..])[i - 1]
  {
    var size := TrivialSize(ty);
    Slot(i, size, n);
    Slot(i - 1, size, n - 1);
    var a := (i - 1) * size;
    assert i * size == size + a;
    SliceOfDrop(buf, size, a, a + size);
  }

  lemma SliceOfDrop(buf: seq<byte>, n: nat, a: nat, b: nat)
    requires a <= b && n + b <= |buf|
    ensures buf[n..][a..b] == buf[n + a..n + b]
  {
  }
}
