/** Writing appends to the buffer and reading trims it, in place. */
module CodecBuffer {
  import opened Bytes
  import opened Codec

  class IOBuf {
    var data: seq<byte>

    constructor (data: seq<byte>)
      ensures this.data == data
    {
      this.data := data;
    }

    method Append(bs: seq<byte>)
      modifies this
      ensures data == old(data) + bs
    {
      data := data + bs;
    }

    method TrimStart(n: nat)
      requires n <= |data|
      modifies this
      ensures data == old(data)[n..]
    {
      data := data[n..];
    }

    method Write(ty: Ty, v: Val)
      requires Typed(ty, v)
      modifies this
      ensures data == old(data) + Encode(ty, v)
      decreases ty, 1, 0
    {
      match ty
      case Scalar(_) => Append(Image(ty, v));
      case Bool => Append(Image(ty, v));
      case Str =>
        Append(Count(|v.bytes|));
        Append(v.bytes);
        Regroup(old(data), Count(|v.bytes|), v.bytes);
      case Opt(of) => WriteOpt(ty, v);
      case Pair(x, y) =>
        Write(x, v.a);
        Write(y, v.b2);
        Regroup(old(data), Encode(x, v.a), Encode(y, v.b2));
      case Tuple(tys) => WriteParts(tys, v.parts);
      case Vec(e) => WriteVec(ty, v);
      case Dict(_, _) =>
        Append(Count(|v.keys|));
        WriteEntries(ty, v.keys, v.vals);
        Regroup(old(data), Count(|v.keys|), EncodeEntries(ty, v.keys, v.vals));
    }

    method WriteOpt(ty: Ty, v: Val)
      requires ty.Opt? && Typed(ty, v)
      modifies this
      ensures data == old(data) + Encode(ty, v)
      decreases ty, 0, 0
    {
      Append([if v.Present? then 1 else 0]);
      if v.Present? {
        Write(ty.of, v.v);
        Regroup(old(data), [1], Encode(ty.of, v.v));
      }
    }

    method WriteVec(ty: Ty, v: Val)
      requires ty.Vec? && Typed(ty, v)
      modifies this
      ensures data == old(data) + Encode(ty, v)
      decreases ty, 0, |v.items| + 1
    {
      Append(Count(|v.items|));
      if Trivial(ty.elem) {
        Append(ArrayImage(ty.elem, v.items));
        Regroup(old(data), Count(|v.items|), ArrayImage(ty.elem, v.items));
      } else {
        WriteItems(ty, v.items);
        Regroup(old(data), Count(|v.items|), EncodeItems(ty, v.items));
      }
    }

    method WriteParts(tys: seq<Ty>, vs: seq<Val>)
      requires |tys| == |vs| && forall i :: 0 <= i < |tys| ==> Typed(tys[i], vs[i])
      modifies this
      ensures data == old(data) + EncodeParts(tys, vs)
      decreases tys, 0, 0
    {
      if tys != [] {
        Write(tys[0], vs[0]);
        WriteParts(tys[1..], vs[1..]);
        Regroup(old(data), Encode(tys[0], vs[0]), EncodeParts(tys[1..], vs[1..]));
      }
    }

    method WriteItems(ty: Ty, items: seq<Val>)
      requires ty.Vec? && forall i :: 0 <= i < |items| ==> Typed(ty.elem, items[i])
      modifies this
      ensures data == old(data) + EncodeItems(ty, items)
      decreases ty, 0, |items|
    {
      var i := 0;
      assert items[0..] == items;
      while i < |items|
        invariant 0 <= i <= |items|
        invariant data + EncodeItems(ty, items[i..]) == old(data) + EncodeItems(ty, items)
      {
        ghost var before, tail := data, EncodeItems(ty, items[i + 1..]);
        assert items[i..][1..] == items[i + 1..];
        Write(ty.elem, items[i]);
        Regroup(before, Encode(ty.elem, items[i]), tail);
        i := i + 1;
      }
      assert items[i..] == [] && data + [] == data;
    }

    method WriteEntries(ty: Ty, keys: seq<Val>, vals: seq<Val>)
      requires ty.Dict? && |keys| == |vals|
      requires forall i :: 0 <= i < |keys| ==> Typed(ty.key, keys[i])
      requires forall i :: 0 <= i < |vals| ==> Typed(ty.value, vals[i])
      modifies this
      ensures data == old(data) + EncodeEntries(ty, keys, vals)
      decreases ty, 0, |keys|
    {
      var i := 0;
      assert keys[0..] == keys && vals[0..] == vals;
      while i < |keys|
        invariant 0 <= i <= |keys|
        invariant data + EncodeEntries(ty, keys[i..], vals[i..]) == old(data) + EncodeEntries(ty, keys, vals)
      {
        ghost var before, tail := data, EncodeEntries(ty, keys[i + 1..], vals[i + 1..]);
        assert keys[i..][1..] == keys[i + 1..] && vals[i..][1..] == vals[i + 1..];
        Write(ty.key, keys[i]);
        Write(ty.value, vals[i]);
        Regroup(before, Encode(ty.key, keys[i]), Encode(ty.value, vals[i]));
        Regroup(before, Encode(ty.key, keys[i]) + Encode(ty.value, vals[i]), tail);
        i := i + 1;
      }
      assert keys[i..] == [] && data + [] == data;
    }

    /** The result of a read and the buffer it leaves. */
    ghost predicate Outcome(r: Read, ok: bool, v: Val)
      reads this
    {
      data == r.rest && ok == r.Ok? && (ok ==> v == r.v)
    }

    method Read(ty: Ty) returns (ok: bool, v: Val)
      modifies this
      ensures Outcome(old(Decode(ty, data)), ok, v)
      decreases ty, 1, 0
    {
      v := Absent;
      match ty
      case Scalar(_) => ok, v := ReadTrivial(ty);
      case Bool => ok, v := ReadTrivial(ty);
      case Str =>
        var n;
        ok, n := ReadCount();
        if ok {
          if |data| < n {
            ok := false;
          } else {
            v := Text(data[..n]);
            TrimStart(n);
          }
        }
      case Opt(of) =>
        var b;
        ok, b := ReadTrivial(Bool);
        if ok {
          if b.b {
            ok, v := Read(of);
            v := Present(v);
          } else {
            v := Absent;
          }
        }
      case Pair(x, y) =>
        var a, b;
        ok, a := Read(x);
        if ok {
          ok, b := Read(y);
          v := Two(a, b);
        }
      case Tuple(tys) => ok, v := ReadParts(tys, []);
      case Vec(e) =>
        var n;
        ok, n := ReadCount();
        if ok {
          if Trivial(e) {
            if |data| < n * TrivialSize(e) {
              ok := false;
            } else {
              v := List(BulkItems(e, n, data));
              TrimStart(n * TrivialSize(e));
            }
          } else {
            ok, v := ReadItems(ty, n);
          }
        }
      case Dict(_, _) =>
        var n;
        ok, n := ReadCount();
        if ok {
          ok, v := ReadEntries(ty, n);
        }
    }

    method ReadTrivial(ty: Ty) returns (ok: bool, v: Val)
      requires Trivial(ty)
      modifies this
      ensures Outcome(old(Decode(ty, data)), ok, v)
      ensures ok ==> if ty.Bool? then v.Flag? else v.Num?
    {
      var size := TrivialSize(ty);
      if |data| < size {
        return false, Absent;
      }
      v := DecodeTrivial(ty, data[..size]);
      TrimStart(size);
      ok := true;
    }

    method ReadCount() returns (ok: bool, n: nat)
      modifies this
      ensures ok <==> |old(data)| >= 4
      ensures ok ==> n == FromLittle(old(data)[..4]) && data == old(data)[4..]
      ensures !ok ==> data == old(data)
    {
      if |data| < 4 {
        return false, 0;
      }
      n := FromLittle(data[..4]);
      TrimStart(4);
      ok := true;
    }

    method ReadParts(tys: seq<Ty>, acc: seq<Val>) returns (ok: bool, v: Val)
      modifies this
      ensures Outcome(old(DecodeParts(tys, data, acc)), ok, v)
      decreases tys, 0, 0
    {
      if tys == [] {
        return true, Parts(acc);
      }
      ok, v := Read(tys[0]);
      if ok {
        ok, v := ReadParts(tys[1..], acc + [v]);
      }
    }

    method ReadItems(ty: Ty, n: nat) returns (ok: bool, v: Val)
      requires ty.Vec?
      modifies this
      ensures Outcome(old(DecodeItems(ty, n, data, [])), ok, v)
      decreases ty, 0, n
    {
      var items := [];
      var i := 0;
      while i < n
        invariant 0 <= i <= n
        invariant DecodeItems(ty, n - i, data, items) == old(DecodeItems(ty, n, data, []))
      {
        ok, v := Read(ty.elem);
        if !ok {
          return;
        }
        items := items + [v];
        i := i + 1;
      }
      return true, List(items);
    }

    method ReadEntries(ty: Ty, n: nat) returns (ok: bool, v: Val)
      requires ty.Dict?
      modifies this
      ensures Outcome(old(DecodeEntries(ty, n, data, [], [])), ok, v)
      decreases ty, 0, n
    {
      var keys, vals := [], [];
      var i := 0;
      while i < n
        invariant 0 <= i <= n
        invariant DecodeEntries(ty, n - i, data, keys, vals) == old(DecodeEntries(ty, n, data, [], []))
      {
        var k;
        ok, k := Read(ty.key);
        if !ok {
          return ok, k;
        }
        ok, v := Read(ty.value);
        if !ok {
          return;
        }
        if k !in keys {
          keys, vals := keys + [k], vals + [v];
        }
        i := i + 1;
      }
      return true, Entries(keys, vals);
    }
  }
}
