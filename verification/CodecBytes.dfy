/** The bytes of the wire format, told without its reader: which byte stands where. */
module CodecBytes {
  import opened Arithmetic
  import opened Bytes
  import opened Codec
  import opened CodecTheorems

  /** A scalar is its digits in base 256, the lowest first. */
  lemma ScalarBytes(w: Width, n: nat, i: nat)
    requires n < Pow256(w.Size()) && i < w.Size()
    ensures |Encode(Scalar(w), Num(n))| == w.Size() && Encode(Scalar(w), Num(n))[i] == n / Pow256(i) % 256
    ensures w.Size() == match w case W1 => 1 case W2 => 2 case W4 => 4 case W8 => 8
  {
    LittleDigit(n, w.Size(), i);
  }

  /** A bool is the byte 1 or 0. */
  lemma FlagBytes(b: bool)
    ensures One(b) < Pow256(W1.Size()) && Encode(Bool, Flag(b)) == Encode(Scalar(W1), Num(One(b))) == [One(b)]
  {
    assert Pow256(0) == 1 && Pow256(1) == 256;
    ScalarBytes(W1, One(b), 0);
  }

  /** An optional is the bool whether it is there, and then the value. */
  lemma OptBytes(of: Ty, v: Val)
    requires Typed(Opt(of), v)
    ensures Encode(Opt(of), v) == Encode(Bool, Flag(v.Present?)) + if v.Present? then Encode(of, v.v) else []
  {
  }

  predicate Counted(ty: Ty) { ty.Str? || ty.Vec? || ty.Dict? }

  /** How many bytes, elements or entries there are. */
  function Length(ty: Ty, v: Val): nat
    requires Counted(ty) && Typed(ty, v)
  {
    match ty case Str => |v.bytes| case Vec(_) => |v.items| case Dict(_, _) => |v.keys|
  }

  /** Strings, vectors and maps begin with the four digits of their length. */
  lemma LengthBytes(ty: Ty, v: Val, i: nat)
    requires Counted(ty) && Typed(ty, v) && i < 4
    ensures |Encode(ty, v)| >= 4 && Encode(ty, v)[i] == Length(ty, v) / Pow256(i) % 256
  {
    LittleDigit(Length(ty, v), 4, i);
  }

  /** A string ends with its own bytes. */
  lemma TextBytes(bytes: seq<byte>)
    ensures |Encode(Str, Text(bytes))| == 4 + |bytes| && Encode(Str, Text(bytes))[4..] == bytes
  {
  }

  /** After the length of a vector its elements stand in order, each as it is written on its own. */
  lemma ItemsBytes(of: Ty, x: Val, xs: seq<Val>)
    requires Typed(of, x) && Typed(Vec(of), List(xs))
    ensures Typed(Vec(of), List([x] + xs))
    ensures |Encode(Vec(of), List([]))| == 4 <= |Encode(Vec(of), List(xs))|
    ensures Encode(Vec(of), List([x] + xs))[4..] == Encode(of, x) + Encode(Vec(of), List(xs))[4..]
  {
    ItemsBody(of, xs);
    ItemsBody(of, [x] + xs);
    ItemsBody(of, []);
    assert ([x] + xs)[1..] == xs;
  }

  lemma ItemsBody(of: Ty, xs: seq<Val>)
    requires Typed(Vec(of), List(xs))
    ensures |Encode(Vec(of), List(xs))| >= 4 && Encode(Vec(of), List(xs))[4..] == EncodeItems(Vec(of), xs)
  {
    if Trivial(of) {
      ArrayImageLoop(Vec(of), xs);
    }
  }

  /** The parts of a tuple stand in order. */
  lemma PartsBytes(ty: Ty, tys: seq<Ty>, x: Val, xs: seq<Val>)
    requires Typed(ty, x) && Typed(Tuple(tys), Parts(xs))
    ensures Typed(Tuple([ty] + tys), Parts([x] + xs))
    ensures Encode(Tuple([]), Parts([])) == []
    ensures Encode(Tuple([ty] + tys), Parts([x] + xs)) == Encode(ty, x) + Encode(Tuple(tys), Parts(xs))
  {
    assert ([ty] + tys)[1..] == tys && ([x] + xs)[1..] == xs;
  }

  /** A pair is written as a tuple of two. */
  lemma PairBytes(x: Ty, y: Ty, a: Val, b: Val)
    requires Typed(x, a) && Typed(y, b)
    ensures Typed(Tuple([x, y]), Parts([a, b]))
    ensures Encode(Pair(x, y), Two(a, b)) == Encode(Tuple([x, y]), Parts([a, b]))
  {
    PartsBytes(y, [], b, []);
    PartsBytes(x, [y], a, [b]);
    assert [x] + [y] == [x, y] && [a] + [b] == [a, b] && [y] + [] == [y] && [b] + [] == [b];
  }

  /** After the length of a map its entries stand in order, each as the pair of its key and value. */
  lemma EntriesBytes(k: Ty, x: Ty, key: Val, val: Val, keys: seq<Val>, vals: seq<Val>)
    requires Typed(Dict(k, x), Entries([key] + keys, [val] + vals))
    ensures Typed(Pair(k, x), Two(key, val)) && Typed(Dict(k, x), Entries(keys, vals))
    ensures |Encode(Dict(k, x), Entries([], []))| == 4 <= |Encode(Dict(k, x), Entries(keys, vals))|
    ensures Encode(Dict(k, x), Entries([key] + keys, [val] + vals))[4..]
         == Encode(Pair(k, x), Two(key, val)) + Encode(Dict(k, x), Entries(keys, vals))[4..]
  {
    EntryTyped(k, x, key, val, keys, vals);
    assert ([key] + keys)[1..] == keys && ([val] + vals)[1..] == vals;
  }

  lemma EntryTyped(k: Ty, x: Ty, key: Val, val: Val, keys: seq<Val>, vals: seq<Val>)
    requires Typed(Dict(k, x), Entries([key] + keys, [val] + vals))
    ensures Typed(Pair(k, x), Two(key, val)) && Typed(Dict(k, x), Entries(keys, vals))
  {
    EachTyped(k, key, keys);
    EachTyped(x, val, vals);
    Tail(key, keys);
  }

  lemma EachTyped(ty: Ty, v: Val, vs: seq<Val>)
    requires forall i :: 0 <= i < |[v] + vs| ==> Typed(ty, ([v] + vs)[i])
    ensures Typed(ty, v) && forall i :: 0 <= i < |vs| ==> Typed(ty, vs[i])
  {
    assert ([v] + vs)[0] == v;
    assert forall i :: 0 <= i < |vs| ==> vs[i] == ([v] + vs)[i + 1];
  }

  lemma Tail(key: Val, keys: seq<Val>)
    requires Distinct([key] + keys)
    ensures Distinct(keys)
  {
    var ks := [key] + keys;
    forall i, j | 0 <= i < j < |keys| ensures keys[i] != keys[j] {
      assert ks[i + 1] != ks[j + 1];
    }
  }

  // ---- What reads accept and leave beyond what is written

  /** The number in the first bytes, if there are enough. */
  lemma ScalarRead(w: Width, buf: seq<byte>)
    ensures |buf| < w.Size() ==> Decode(Scalar(w), buf) == Fail(buf)
    ensures |buf| >= w.Size() ==>
              Decode(Scalar(w), buf) == Ok(Num(FromLittle(buf[..w.Size()])), buf[w.Size()..])
              && ToLittle(FromLittle(buf[..w.Size()]), w.Size()) == buf[..w.Size()]
  {
    if |buf| >= w.Size() {
      LittleInverse(buf[..w.Size()]);
    }
  }

  /** A bool is read as a byte; every byte but 0 is true. */
  lemma FlagRead(buf: seq<byte>)
    ensures var r := Decode(Scalar(W1), buf);
            Decode(Bool, buf) == if r.Ok? then Ok(Flag(r.v.n != 0), r.rest) else r
  {
    if |buf| > 0 {
      assert buf[..1][1..] == [] && FromLittle(buf[..1]) == buf[0];
    }
  }

  /** An optional is read as a bool and, if that is true, a value; what fails leaves what it leaves. */
  lemma OptRead(of: Ty, buf: seq<byte>)
    ensures var r := Decode(Bool, buf);
            Decode(Opt(of), buf) ==
              if r.Fail? then r
              else if !r.v.b then Ok(Absent, r.rest)
              else if Decode(of, r.rest).Ok? then Ok(Present(Decode(of, r.rest).v), Decode(of, r.rest).rest)
              else Decode(of, r.rest)
  {
  }

  /** A string is read as a 32-bit length and as many bytes; if these are missing the length is gone all the same. */
  lemma TextReadExact(buf: seq<byte>)
    ensures var r := Decode(Scalar(W4), buf);
            Decode(Str, buf) ==
              if r.Fail? then r
              else if |r.rest| < r.v.n then Fail(r.rest)
              else Ok(Text(r.rest[..r.v.n]), r.rest[r.v.n..])
  {
    if |buf| >= 4 && |buf| - 4 >= FromLittle(buf[..4]) {
      var n := FromLittle(buf[..4]);
      assert buf[4..][..n] == buf[4..4 + n] && buf[4..][n..] == buf[4 + n..];
    }
  }

  /** A scalar vector is read whole or, after its length, not at all. */
  lemma BulkRead(of: Ty, buf: seq<byte>)
    requires Trivial(of)
    ensures var r := Decode(Scalar(W4), buf);
            && (r.Fail? ==> Decode(Vec(of), buf) == r)
            && (r.Ok? ==>
                 if |r.rest| < r.v.n * TrivialSize(of) then Decode(Vec(of), buf) == Fail(r.rest)
                 else Decode(Vec(of), buf).Ok? && Decode(Vec(of), buf).rest == r.rest[r.v.n * TrivialSize(of)..])
  {
  }

  /** Parts of a tuple are read one after the other, up to the first failure. */
  lemma {:induction false} PartsRead(tys: seq<Ty>, buf: seq<byte>, acc: seq<Val>)
    ensures tys == [] ==> DecodeParts(tys, buf, acc) == Ok(Parts(acc), buf)
    ensures tys != [] ==>
              var r := Decode(tys[0], buf);
              DecodeParts(tys, buf, acc) == if r.Ok? then DecodeParts(tys[1..], r.rest, acc + [r.v]) else r
  {
  }

  /** Without a length of four bytes nothing is read. */
  lemma LengthRead(ty: Ty, buf: seq<byte>)
    requires Counted(ty) && Decode(Scalar(W4), buf).Fail?
    ensures Decode(ty, buf) == Decode(Scalar(W4), buf) == Fail(buf)
  {
  }

  /** Two reads that succeed or fail together and leave the same bytes. */
  predicate SameEnd(a: Read, b: Read) { a.rest == b.rest && a.Ok? == b.Ok? }

  /** A pair is read as a tuple of two, and where that fails. */
  lemma PairRead(x: Ty, y: Ty, buf: seq<byte>)
    ensures var p, r := Decode(Pair(x, y), buf), Decode(Tuple([x, y]), buf);
            SameEnd(p, r) && (r.Ok? ==> r.v.Parts? && |r.v.parts| == 2 && p.v == Two(r.v.parts[0], r.v.parts[1]))
  {
    PartsRead([x, y], buf, []);
    var a := Decode(x, buf);
    if a.Ok? {
      assert [x, y][1..] == [y] && [] + [a.v] == [a.v];
      PartsRead([y], a.rest, [a.v]);
      var b := Decode(y, a.rest);
      if b.Ok? {
        assert [y][1..] == [] && [a.v] + [b.v] == [a.v, b.v];
        PartsRead([], b.rest, [a.v, b.v]);
      }
    }
  }

  function Copies(ty: Ty, n: nat): seq<Ty> { if n == 0 then [] else [ty] + Copies(ty, n - 1) }

  /** After its length a vector is read as a tuple of so many elements, and where that fails. */
  lemma VecRead(of: Ty, buf: seq<byte>)
    requires !Trivial(of) && Decode(Scalar(W4), buf).Ok?
    ensures var n := Decode(Scalar(W4), buf);
            var p, r := Decode(Vec(of), buf), Decode(Tuple(Copies(of, n.v.n)), n.rest);
            SameEnd(p, r) && (r.Ok? ==> r.v.Parts? && p.v == List(r.v.parts))
  {
    ItemsAsParts(Vec(of), FromLittle(buf[..4]), buf[4..], []);
  }

  lemma {:induction false} ItemsAsParts(ty: Ty, n: nat, buf: seq<byte>, acc: seq<Val>)
    requires ty.Vec?
    ensures var p, r := DecodeItems(ty, n, buf, acc), DecodeParts(Copies(ty.elem, n), buf, acc);
            SameEnd(p, r) && (r.Ok? ==> r.v.Parts? && p.v == List(r.v.parts))
    decreases n
  {
    PartsRead(Copies(ty.elem, n), buf, acc);
    if n > 0 {
      assert Copies(ty.elem, n)[1..] == Copies(ty.elem, n - 1);
      var r := Decode(ty.elem, buf);
      if r.Ok? {
        ItemsAsParts(ty, n - 1, r.rest, acc + [r.v]);
      }
    }
  }

  /** The entries of a list of pairs. */
  predicate Unzips(pairs: seq<Val>, keys: seq<Val>, vals: seq<Val>) {
    |pairs| == |keys| == |vals| && forall i :: 0 <= i < |pairs| ==> pairs[i] == Two(keys[i], vals[i])
  }

  ghost predicate ReadAsPairs(p: Read, r: Read, keys: seq<Val>, vals: seq<Val>) {
    SameEnd(p, r)
    && (r.Ok? ==> r.v.List? && exists ks, vs :: Unzips(r.v.items, ks, vs) && p.v == Emplaced(keys, vals, ks, vs))
  }

  /** A map is read as a vector of pairs, and where that fails; then the pairs are emplaced. */
  lemma DictRead(k: Ty, x: Ty, buf: seq<byte>)
    ensures ReadAsPairs(Decode(Dict(k, x), buf), Decode(Vec(Pair(k, x)), buf), [], [])
  {
    if |buf| >= 4 {
      EntriesAsItems(k, x, FromLittle(buf[..4]), buf[4..], [], []);
    }
  }

  lemma {:induction false} EntriesAsItems(k: Ty, x: Ty, n: nat, buf: seq<byte>, keys: seq<Val>, vals: seq<Val>)
    ensures ReadAsPairs(DecodeEntries(Dict(k, x), n, buf, keys, vals), DecodeItems(Vec(Pair(k, x)), n, buf, []), keys, vals)
    decreases n
  {
    if n == 0 {
      assert Unzips([], [], []);
    } else if Decode(Pair(k, x), buf).Ok? {
      var a, b := Decode(k, buf), Decode(x, Decode(k, buf).rest);
      var ks, vs := if a.v in keys then keys else keys + [a.v], if a.v in keys then vals else vals + [b.v];
      EntriesAsItems(k, x, n - 1, b.rest, ks, vs);
      ItemsFrom(Vec(Pair(k, x)), n - 1, b.rest, [Two(a.v, b.v)]);
      assert [] + [Two(a.v, b.v)] == [Two(a.v, b.v)];
      assert DecodeItems(Vec(Pair(k, x)), n, buf, []) == DecodeItems(Vec(Pair(k, x)), n - 1, b.rest, [Two(a.v, b.v)]);
      assert DecodeEntries(Dict(k, x), n, buf, keys, vals) == DecodeEntries(Dict(k, x), n - 1, b.rest, ks, vs);
      AddPair(DecodeEntries(Dict(k, x), n - 1, b.rest, ks, vs), DecodeItems(Vec(Pair(k, x)), n - 1, b.rest, []),
              DecodeItems(Vec(Pair(k, x)), n, buf, []), keys, vals, a.v, b.v);
    }
  }

  lemma AddPair(p: Read, t: Read, r: Read, keys: seq<Val>, vals: seq<Val>, a: Val, b: Val)
    requires ReadAsPairs(p, t, if a in keys then keys else keys + [a], if a in keys then vals else vals + [b])
    requires SameEnd(r, t) && (t.Ok? ==> t.v.List? && r.v == List([Two(a, b)] + t.v.items))
    ensures ReadAsPairs(p, r, keys, vals)
  {
    if r.Ok? {
      var ks, vs :| Unzips(t.v.items, ks, vs)
                    && p.v == Emplaced(if a in keys then keys else keys + [a], if a in keys then vals else vals + [b], ks, vs);
      assert ([a] + ks)[1..] == ks && ([b] + vs)[1..] == vs;
      assert Unzips(r.v.items, [a] + ks, [b] + vs);
    }
  }

  /** Elements already read come first. */
  lemma {:induction false} ItemsFrom(ty: Ty, n: nat, buf: seq<byte>, acc: seq<Val>)
    requires ty.Vec?
    ensures var r, t := DecodeItems(ty, n, buf, acc), DecodeItems(ty, n, buf, []);
            SameEnd(r, t) && (t.Ok? ==> t.v.List? && r.v == List(acc + t.v.items))
    decreases n
  {
    if n == 0 {
      assert acc + [] == acc;
    } else {
      var h := Decode(ty.elem, buf);
      if h.Ok? {
        ItemsFrom(ty, n - 1, h.rest, acc + [h.v]);
        ItemsFrom(ty, n - 1, h.rest, [] + [h.v]);
        var t := DecodeItems(ty, n - 1, h.rest, []);
        if t.Ok? {
          assert acc + [h.v] + t.v.items == acc + ([] + [h.v] + t.v.items);
        }
      }
    }
  }

  lemma {:induction false} LittleInverse(bs: seq<byte>)
    ensures ToLittle(FromLittle(bs), |bs|) == bs
  {
    if bs != [] {
      LittleInverse(bs[1..]);
      DivModUnique(FromLittle(bs), 256, FromLittle(bs[1..]), bs[0]);
    }
  }
}
