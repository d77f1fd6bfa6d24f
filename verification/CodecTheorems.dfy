/** The wire format round-trips, delimits itself, and has the announced size. */
module CodecTheorems {
  import opened Arithmetic
  import opened Bytes
  import opened Codec

  // ---- Reading back

  lemma CountRead(n: nat)
    ensures FromLittle(Count(n)) == n % LENGTHS
  {
    LittleRoundTrip(n, 4);
    assert Pow256(0) == 1 && Pow256(1) == 256 && Pow256(2) == 65536 && Pow256(3) == 16777216 && Pow256(4) == LENGTHS;
  }

  lemma CountShort(n: nat)
    requires n < LENGTHS
    ensures FromLittle(Count(n)) == n
  {
    CountRead(n);
  }

  lemma TrivialRoundTrip(ty: Ty, v: Val)
    requires Trivial(ty) && Typed(ty, v)
    ensures DecodeTrivial(ty, Image(ty, v)) == v
  {
    if ty.Scalar? {
      LittleRoundTrip(v.n, ty.width.Size());
      SmallMod(v.n, Pow256(ty.width.Size()));
    }
  }

  lemma SmallMod(x: nat, d: nat)
    requires x < d
    ensures x % d == x
  {
  }

  lemma HeaderCut(count: seq<byte>, body: seq<byte>, rest: seq<byte>)
    requires |count| == 4
    ensures (count + body + rest)[..4] == count && (count + body + rest)[4..] == body + rest
  {
  }

  /** Reading what was written, followed by anything, gives the value back and leaves the rest. */
  lemma {:induction false} RoundTrip(ty: Ty, v: Val, rest: seq<byte>)
    requires Typed(ty, v) && Short(v)
    ensures Decode(ty, Encode(ty, v) + rest) == Ok(v, rest)
    decreases ty, 2, 0
  {
    match ty
    case Scalar(_) => TrivialBuffer(ty, v, rest);
    case Bool => TrivialBuffer(ty, v, rest);
    case Str => TextRoundTrip(v, rest);
    case Opt(_) => OptRoundTrip(ty, v, rest);
    case Pair(_, _) => PairRoundTrip(ty, v, rest);
    case Tuple(_) => TupleRoundTrip(ty, v, rest);
    case Vec(_) => VecRoundTrip(ty, v, rest);
    case Dict(_, _) => DictRoundTrip(ty, v, rest);
  }

  lemma {:induction false} OptRoundTrip(ty: Ty, v: Val, rest: seq<byte>)
    requires ty.Opt? && Typed(ty, v) && Short(v)
    ensures Decode(ty, Encode(ty, v) + rest) == Ok(v, rest)
    decreases ty, 1, 0
  {
    var buf := Encode(ty, v) + rest;
    if v.Present? {
      RoundTrip(ty.of, v.v, rest);
      assert buf[1..] == Encode(ty.of, v.v) + rest;
    } else {
      assert buf[1..] == rest;
    }
  }

  lemma {:induction false} PairRoundTrip(ty: Ty, v: Val, rest: seq<byte>)
    requires ty.Pair? && Typed(ty, v) && Short(v)
    ensures Decode(ty, Encode(ty, v) + rest) == Ok(v, rest)
    decreases ty, 1, 0
  {
    var tail := Encode(ty.second, v.b2) + rest;
    RoundTrip(ty.first, v.a, tail);
    RoundTrip(ty.second, v.b2, rest);
    assert Encode(ty, v) + rest == Encode(ty.first, v.a) + tail;
  }

  lemma {:induction false} TupleRoundTrip(ty: Ty, v: Val, rest: seq<byte>)
    requires ty.Tuple? && Typed(ty, v) && Short(v)
    ensures Decode(ty, Encode(ty, v) + rest) == Ok(v, rest)
    decreases ty, 1, 0
  {
    PartsRoundTrip(ty.parts, v.parts, rest, []);
    assert [] + v.parts == v.parts;
  }

  lemma {:induction false} VecRoundTrip(ty: Ty, v: Val, rest: seq<byte>)
    requires ty.Vec? && Typed(ty, v) && Short(v)
    ensures Decode(ty, Encode(ty, v) + rest) == Ok(v, rest)
    decreases ty, 1, 0
  {
    ItemsRoundTrip(ty, v.items, rest, []);
    assert [] + v.items == v.items;
    VecBuffer(ty, v, rest);
  }

  lemma {:induction false} DictRoundTrip(ty: Ty, v: Val, rest: seq<byte>)
    requires ty.Dict? && Typed(ty, v) && Short(v)
    ensures Decode(ty, Encode(ty, v) + rest) == Ok(v, rest)
    decreases ty, 1, 0
  {
    assert [] + v.keys == v.keys && [] + v.vals == v.vals;
    EntriesRoundTrip(ty, v.keys, v.vals, [], [], rest);
    EmplacedDistinct([], [], v.keys, v.vals);
    DictBuffer(ty, v, rest);
  }

  lemma DictBuffer(ty: Ty, v: Val, rest: seq<byte>)
    requires ty.Dict? && Typed(ty, v) && |v.keys| < LENGTHS
    requires DecodeEntries(ty, |v.keys|, EncodeEntries(ty, v.keys, v.vals) + rest, [], []) == Ok(v, rest)
    ensures Decode(ty, Encode(ty, v) + rest) == Ok(v, rest)
  {
    CountShort(|v.keys|);
    HeaderCut(Count(|v.keys|), EncodeEntries(ty, v.keys, v.vals), rest);
  }

  lemma TrivialBuffer(ty: Ty, v: Val, rest: seq<byte>)
    requires Trivial(ty) && Typed(ty, v)
    ensures Decode(ty, Encode(ty, v) + rest) == Ok(v, rest)
  {
    TrivialRoundTrip(ty, v);
    var buf, size := Encode(ty, v) + rest, TrivialSize(ty);
    assert buf[..size] == Image(ty, v) && buf[size..] == rest;
  }

  lemma TextRoundTrip(v: Val, rest: seq<byte>)
    requires v.Text? && Short(v)
    ensures Decode(Str, Encode(Str, v) + rest) == Ok(v, rest)
  {
    CountShort(|v.bytes|);
    CountedCut(Count(|v.bytes|), v.bytes, rest);
    TextRead(Count(|v.bytes|) + v.bytes + rest, |v.bytes|);
  }

  lemma TextRead(buf: seq<byte>, n: nat)
    requires |buf| >= 4 + n && FromLittle(buf[..4]) == n
    ensures Decode(Str, buf) == Ok(Text(buf[4..4 + n]), buf[4 + n..])
  {
  }

  /** The vector case, whichever of the two paths is taken. */
  lemma VecBuffer(ty: Ty, v: Val, rest: seq<byte>)
    requires ty.Vec? && Typed(ty, v) && |v.items| < LENGTHS
    requires DecodeItems(ty, |v.items|, EncodeItems(ty, v.items) + rest, []) == Ok(v, rest)
    ensures Decode(ty, Encode(ty, v) + rest) == Ok(v, rest)
  {
    CountShort(|v.items|);
    var body := EncodeItems(ty, v.items);
    if Trivial(ty.elem) {
      ArrayImageLoop(ty, v.items);
    }
    var buf := Encode(ty, v) + rest;
    HeaderCut(Count(|v.items|), body, rest);
    assert buf == Count(|v.items|) + body + rest;
    if Trivial(ty.elem) {
      var bulk := DecodeBulk(ty.elem, |v.items|, body + rest);
      BulkLoop(ty, |v.items|, body + rest, []);
      if bulk.Ok? { assert [] + bulk.v.items == bulk.v.items; }
    }
  }

  lemma {:induction false} PartsRoundTrip(tys: seq<Ty>, vs: seq<Val>, rest: seq<byte>, acc: seq<Val>)
    requires |tys| == |vs| && forall i :: 0 <= i < |tys| ==> Typed(tys[i], vs[i]) && Short(vs[i])
    ensures DecodeParts(tys, EncodeParts(tys, vs) + rest, acc) == Ok(Parts(acc + vs), rest)
    decreases tys, 0, 0
  {
    if tys == [] {
      assert acc + vs == acc && EncodeParts(tys, vs) + rest == rest;
    } else {
      var tail := EncodeParts(tys[1..], vs[1..]) + rest;
      RoundTrip(tys[0], vs[0], tail);
      assert EncodeParts(tys, vs) + rest == Encode(tys[0], vs[0]) + tail;
      PartsRoundTrip(tys[1..], vs[1..], rest, acc + [vs[0]]);
      assert acc + [vs[0]] + vs[1..] == acc + vs;
    }
  }

  lemma {:induction false} ItemsRoundTrip(ty: Ty, items: seq<Val>, rest: seq<byte>, acc: seq<Val>)
    requires ty.Vec? && forall i :: 0 <= i < |items| ==> Typed(ty.elem, items[i]) && Short(items[i])
    ensures DecodeItems(ty, |items|, EncodeItems(ty, items) + rest, acc) == Ok(List(acc + items), rest)
    decreases ty, 0, |items|
  {
    if items == [] {
      assert acc + items == acc && EncodeItems(ty, items) + rest == rest;
    } else {
      var tail := EncodeItems(ty, items[1..]) + rest;
      RoundTrip(ty.elem, items[0], tail);
      assert EncodeItems(ty, items) + rest == Encode(ty.elem, items[0]) + tail;
      ItemsRoundTrip(ty, items[1..], rest, acc + [items[0]]);
      assert acc + [items[0]] + items[1..] == acc + items;
    }
  }

  /** Entries whose keys may repeat. */
  lemma {:induction false} EntriesRoundTrip(ty: Ty, keys: seq<Val>, vals: seq<Val>,
                                            accKeys: seq<Val>, accVals: seq<Val>, rest: seq<byte>)
    requires ty.Dict? && |keys| == |vals|
    requires forall j :: 0 <= j < |keys| ==> Typed(ty.key, keys[j]) && Short(keys[j])
    requires forall j :: 0 <= j < |vals| ==> Typed(ty.value, vals[j]) && Short(vals[j])
    ensures DecodeEntries(ty, |keys|, EncodeEntries(ty, keys, vals) + rest, accKeys, accVals)
         == Ok(Emplaced(accKeys, accVals, keys, vals), rest)
    decreases ty, 0, |keys|
  {
    if keys == [] {
      assert EncodeEntries(ty, keys, vals) + rest == rest;
    } else {
      var tail := EncodeEntries(ty, keys[1..], vals[1..]) + rest;
      RoundTrip(ty.value, vals[0], tail);
      RoundTrip(ty.key, keys[0], Encode(ty.value, vals[0]) + tail);
      EntriesSplit(ty, keys, vals, rest);
      EntriesStep(ty, |keys|, EncodeEntries(ty, keys, vals) + rest, keys[0], vals[0], tail, accKeys, accVals);
      if keys[0] in accKeys {
        EntriesRoundTrip(ty, keys[1..], vals[1..], accKeys, accVals, rest);
      } else {
        EntriesRoundTrip(ty, keys[1..], vals[1..], accKeys + [keys[0]], accVals + [vals[0]], rest);
      }
    }
  }

  lemma EntriesSplit(ty: Ty, keys: seq<Val>, vals: seq<Val>, rest: seq<byte>)
    requires ty.Dict? && |keys| == |vals| && keys != []
    requires forall j :: 0 <= j < |keys| ==> Typed(ty.key, keys[j])
    requires forall j :: 0 <= j < |vals| ==> Typed(ty.value, vals[j])
    ensures EncodeEntries(ty, keys, vals) + rest
         == Encode(ty.key, keys[0]) + (Encode(ty.value, vals[0]) + (EncodeEntries(ty, keys[1..], vals[1..]) + rest))
  {
  }

  lemma EntriesStep(ty: Ty, n: nat, buf: seq<byte>, k: Val, v: Val, tail: seq<byte>, accKeys: seq<Val>, accVals: seq<Val>)
    requires ty.Dict? && n > 0 && Decode(ty.key, buf).Ok? && Decode(ty.key, buf).v == k
    requires Decode(ty.value, Decode(ty.key, buf).rest) == Ok(v, tail)
    ensures DecodeEntries(ty, n, buf, accKeys, accVals)
         == if k in accKeys then DecodeEntries(ty, n - 1, tail, accKeys, accVals)
            else DecodeEntries(ty, n - 1, tail, accKeys + [k], accVals + [v])
  {
  }

  lemma NewKey(acc: seq<Val>, keys: seq<Val>)
    requires keys != [] && Distinct(acc + keys)
    ensures keys[0] !in acc && acc + [keys[0]] + keys[1..] == acc + keys
  {
    forall i | 0 <= i < |acc| ensures acc[i] != keys[0] {
      assert (acc + keys)[i] != (acc + keys)[|acc|];
    }
  }

  lemma {:induction false} EmplacedDistinct(keys: seq<Val>, vals: seq<Val>, newKeys: seq<Val>, newVals: seq<Val>)
    requires |newKeys| == |newVals| && Distinct(keys + newKeys)
    ensures Emplaced(keys, vals, newKeys, newVals) == Entries(keys + newKeys, vals + newVals)
    decreases |newKeys|
  {
    if newKeys == [] {
      assert keys + newKeys == keys && vals + newVals == vals;
    } else {
      NewKey(keys, newKeys);
      assert vals + [newVals[0]] + newVals[1..] == vals + newVals;
      EmplacedDistinct(keys + [newKeys[0]], vals + [newVals[0]], newKeys[1..], newVals[1..]);
    }
  }

  /** What emplacing does: the map's own entries stay, every new key is there, and an added entry is the
      first of its key among the new ones. */
  lemma {:induction false} EmplacedKeepsFirst(keys: seq<Val>, vals: seq<Val>, newKeys: seq<Val>, newVals: seq<Val>)
    requires |keys| == |vals| && |newKeys| == |newVals|
    ensures var r := Emplaced(keys, vals, newKeys, newVals);
            && r.Entries? && |r.keys| == |r.vals| && keys <= r.keys && vals <= r.vals
            && (Distinct(keys) ==> Distinct(r.keys))
            && (forall i :: 0 <= i < |newKeys| ==> newKeys[i] in r.keys)
            && (forall j :: |keys| <= j < |r.keys| ==> IsFirst(r.keys[j], r.vals[j], keys, newKeys, newVals))
    decreases |newKeys|
  {
    if newKeys != [] {
      var k, v, ks, vs := newKeys[0], newVals[0], newKeys[1..], newVals[1..];
      if k in keys {
        EmplacedKeepsFirst(keys, vals, ks, vs);
        var r := Emplaced(keys, vals, ks, vs);
        forall j | |keys| <= j < |r.keys| ensures IsFirst(r.keys[j], r.vals[j], keys, newKeys, newVals) {
          FirstLater(r.keys[j], r.vals[j], keys, keys, newKeys, newVals);
        }
      } else {
        EmplacedKeepsFirst(keys + [k], vals + [v], ks, vs);
        var r := Emplaced(keys + [k], vals + [v], ks, vs);
        forall j | |keys| <= j < |r.keys| ensures IsFirst(r.keys[j], r.vals[j], keys, newKeys, newVals) {
          if j == |keys| {
            assert r.keys[j] == (keys + [k])[j] && r.vals[j] == (vals + [v])[j];
            assert FirstAt(k, v, keys, newKeys, newVals, 0);
          } else {
            FirstLater(r.keys[j], r.vals[j], keys, keys + [k], newKeys, newVals);
          }
        }
        assert k in r.keys by { assert (keys + [k])[|keys|] == k; }
      }
    }
  }

  /** `v` is the value of the first entry with key `k` in a list of entries, and the key is not in `keys`. */
  ghost predicate IsFirst(k: Val, v: Val, keys: seq<Val>, newKeys: seq<Val>, newVals: seq<Val>)
    requires |newKeys| == |newVals|
  {
    exists i: nat :: FirstAt(k, v, keys, newKeys, newVals, i)
  }

  predicate FirstAt(k: Val, v: Val, keys: seq<Val>, newKeys: seq<Val>, newVals: seq<Val>, i: nat)
    requires |newKeys| == |newVals|
  {
    i < |newKeys| && newKeys[i] == k && newVals[i] == v && k !in newKeys[..i] && k !in keys
  }

  lemma FirstLater(k: Val, v: Val, keys: seq<Val>, known: seq<Val>, newKeys: seq<Val>, newVals: seq<Val>)
    requires |newKeys| == |newVals| && newKeys != [] && newKeys[0] in known && keys <= known
    requires IsFirst(k, v, known, newKeys[1..], newVals[1..])
    ensures IsFirst(k, v, keys, newKeys, newVals)
  {
    var i: nat :| FirstAt(k, v, known, newKeys[1..], newVals[1..], i);
    assert newKeys[..i + 1] == [newKeys[0]] + newKeys[1..][..i];
    assert FirstAt(k, v, keys, newKeys, newVals, i + 1);
  }

  /** A map is read as its entries emplaced one by one, also when keys repeat. */
  lemma RepeatedKeys(ty: Ty, keys: seq<Val>, vals: seq<Val>, rest: seq<byte>)
    requires ty.Dict? && |keys| == |vals| < LENGTHS
    requires forall j :: 0 <= j < |keys| ==> Typed(ty.key, keys[j]) && Short(keys[j])
    requires forall j :: 0 <= j < |vals| ==> Typed(ty.value, vals[j]) && Short(vals[j])
    ensures Decode(ty, Count(|keys|) + EncodeEntries(ty, keys, vals) + rest) == Ok(Emplaced([], [], keys, vals), rest)
  {
    CountShort(|keys|);
    HeaderCut(Count(|keys|), EncodeEntries(ty, keys, vals), rest);
    EntriesRoundTrip(ty, keys, vals, [], [], rest);
  }

  // ---- Everything a read accepts is a short value of the type

  lemma {:induction false} ReadTyped(ty: Ty, buf: seq<byte>)
    ensures Decode(ty, buf).Ok? ==> Typed(ty, Decode(ty, buf).v) && Short(Decode(ty, buf).v)
    decreases ty, 1, 0
  {
    match ty
    case Scalar(w) =>
      if |buf| >= w.Size() { FromLittleFits(buf[..w.Size()]); }
    case Bool =>
    case Str =>
      if |buf| >= 4 { CountFits(buf); }
    case Opt(of) =>
      if |buf| >= 1 { ReadTyped(of, buf[1..]); }
    case Pair(x, y) =>
      ReadTyped(x, buf);
      ReadTyped(y, Decode(x, buf).rest);
    case Tuple(tys) => PartsTyped(tys, buf, [], []);
    case Vec(e) =>
      if |buf| >= 4 {
        CountFits(buf);
        var n := FromLittle(buf[..4]);
        ItemsTyped(ty, n, buf[4..], []);
        if Trivial(e) {
          BulkLoop(ty, n, buf[4..], []);
          var bulk := DecodeBulk(e, n, buf[4..]);
          if bulk.Ok? { assert [] + bulk.v.items == bulk.v.items; }
        }
      }
    case Dict(_, _) =>
      if |buf| >= 4 {
        CountFits(buf);
        EntriesTyped(ty, FromLittle(buf[..4]), buf[4..], [], []);
      }
  }

  lemma CountFits(buf: seq<byte>)
    requires |buf| >= 4
    ensures FromLittle(buf[..4]) < LENGTHS
  {
    FromLittleFits(buf[..4]);
    assert Pow256(0) == 1 && Pow256(1) == 256 && Pow256(2) == 65536 && Pow256(3) == 16777216 && Pow256(4) == LENGTHS;
  }

  lemma {:induction false} PartsTyped(tys: seq<Ty>, buf: seq<byte>, done: seq<Ty>, acc: seq<Val>)
    requires |done| == |acc| && forall i :: 0 <= i < |done| ==> Typed(done[i], acc[i]) && Short(acc[i])
    ensures var r := DecodeParts(tys, buf, acc);
            r.Ok? ==> Typed(Tuple(done + tys), r.v) && Short(r.v)
    decreases tys, 0, 0
  {
    if tys == [] {
      assert done + tys == done;
    } else {
      ReadTyped(tys[0], buf);
      var r := Decode(tys[0], buf);
      if r.Ok? {
        PartsTyped(tys[1..], r.rest, done + [tys[0]], acc + [r.v]);
        assert done + [tys[0]] + tys[1..] == done + tys;
      }
    }
  }

  lemma {:induction false} ItemsTyped(ty: Ty, n: nat, buf: seq<byte>, acc: seq<Val>)
    requires ty.Vec? && |acc| + n < LENGTHS && forall i :: 0 <= i < |acc| ==> Typed(ty.elem, acc[i]) && Short(acc[i])
    ensures var r := DecodeItems(ty, n, buf, acc);
            r.Ok? ==> Typed(ty, r.v) && Short(r.v)
    decreases ty, 0, n
  {
    if n > 0 {
      ReadTyped(ty.elem, buf);
      var r := Decode(ty.elem, buf);
      if r.Ok? {
        ItemsTyped(ty, n - 1, r.rest, acc + [r.v]);
      }
    }
  }

  lemma {:induction false} EntriesTyped(ty: Ty, n: nat, buf: seq<byte>, keys: seq<Val>, vals: seq<Val>)
    requires ty.Dict? && |keys| == |vals| && |keys| + n < LENGTHS && Distinct(keys)
    requires forall i :: 0 <= i < |keys| ==> Typed(ty.key, keys[i]) && Short(keys[i])
    requires forall i :: 0 <= i < |vals| ==> Typed(ty.value, vals[i]) && Short(vals[i])
    ensures var r := DecodeEntries(ty, n, buf, keys, vals);
            r.Ok? ==> Typed(ty, r.v) && Short(r.v)
    decreases ty, 0, n
  {
    if n > 0 {
      ReadTyped(ty.key, buf);
      var k := Decode(ty.key, buf);
      if k.Ok? {
        ReadTyped(ty.value, k.rest);
        var v := Decode(ty.value, k.rest);
        if v.Ok? {
          if k.v in keys {
            EntriesTyped(ty, n - 1, v.rest, keys, vals);
          } else {
            EntriesTyped(ty, n - 1, v.rest, keys + [k.v], vals + [v.v]);
          }
        }
      }
    }
  }

  /** The round trip succeeds exactly for values whose lengths fit in 32 bits. */
  lemma RoundTripIff(ty: Ty, v: Val, rest: seq<byte>)
    requires Typed(ty, v)
    ensures Decode(ty, Encode(ty, v) + rest) == Ok(v, rest) <==> Short(v)
  {
    if Short(v) {
      RoundTrip(ty, v, rest);
    }
    ReadTyped(ty, Encode(ty, v) + rest);
  }

  // ---- A successful read does not look past what it consumes

  lemma {:induction false} Extends(ty: Ty, buf: seq<byte>, more: seq<byte>)
    requires Decode(ty, buf).Ok?
    ensures var r := Decode(ty, buf);
            Decode(ty, buf + more) == Ok(r.v, r.rest + more)
    decreases ty, 1, 0
  {
    var r := Decode(ty, buf);
    match ty
    case Scalar(w) =>
      Cut(buf, more, w.Size());
    case Bool =>
      Cut(buf, more, 1);
    case Str =>
      Cut(buf, more, 4);
      var n := FromLittle(buf[..4]);
      Cut(buf[4..], more, n);
      TextCut(buf, more, n);
    case Opt(of) =>
      Cut(buf, more, 1);
      if buf[0] != 0 { Extends(of, buf[1..], more); }
    case Pair(x, y) =>
      Extends(x, buf, more);
      Extends(y, Decode(x, buf).rest, more);
    case Tuple(tys) => PartsExtend(tys, buf, more, []);
    case Vec(e) =>
      Cut(buf, more, 4);
      var n := FromLittle(buf[..4]);
      if Trivial(e) {
        BulkExtends(ty, n, buf[4..], more);
      } else {
        ItemsExtend(ty, n, buf[4..], more, []);
      }
    case Dict(_, _) =>
      Cut(buf, more, 4);
      EntriesExtend(ty, FromLittle(buf[..4]), buf[4..], more, [], []);
  }

  lemma Cut(buf: seq<byte>, more: seq<byte>, n: nat)
    requires n <= |buf|
    ensures (buf + more)[..n] == buf[..n] && (buf + more)[n..] == buf[n..] + more
  {
  }

  lemma TextCut(buf: seq<byte>, more: seq<byte>, n: nat)
    requires 4 + n <= |buf|
    ensures (buf + more)[4..4 + n] == buf[4..4 + n] && (buf + more)[4 + n..] == buf[4 + n..] + more
  {
  }

  lemma BulkExtends(ty: Ty, n: nat, buf: seq<byte>, more: seq<byte>)
    requires ty.Vec? && Trivial(ty.elem) && DecodeBulk(ty.elem, n, buf).Ok?
    ensures var r := DecodeBulk(ty.elem, n, buf);
            DecodeBulk(ty.elem, n, buf + more) == Ok(r.v, r.rest + more)
  {
    var size := TrivialSize(ty.elem);
    Cut(buf, more, n * size);
    forall i | 0 <= i < n ensures BulkItems(ty.elem, n, buf + more)[i] == BulkItems(ty.elem, n, buf)[i] {
      Slot(i, size, n);
      assert (buf + more)[i * size..i * size + size] == buf[i * size..i * size + size];
    }
    assert BulkItems(ty.elem, n, buf + more) == BulkItems(ty.elem, n, buf);
  }

  lemma {:induction false} PartsExtend(tys: seq<Ty>, buf: seq<byte>, more: seq<byte>, acc: seq<Val>)
    requires DecodeParts(tys, buf, acc).Ok?
    ensures var r := DecodeParts(tys, buf, acc);
            DecodeParts(tys, buf + more, acc) == Ok(r.v, r.rest + more)
    decreases tys, 0, 0
  {
    if tys != [] {
      Extends(tys[0], buf, more);
      var r := Decode(tys[0], buf);
      PartsExtend(tys[1..], r.rest, more, acc + [r.v]);
    }
  }

  lemma {:induction false} ItemsExtend(ty: Ty, n: nat, buf: seq<byte>, more: seq<byte>, acc: seq<Val>)
    requires ty.Vec? && DecodeItems(ty, n, buf, acc).Ok?
    ensures var r := DecodeItems(ty, n, buf, acc);
            DecodeItems(ty, n, buf + more, acc) == Ok(r.v, r.rest + more)
    decreases ty, 0, n
  {
    if n > 0 {
      Extends(ty.elem, buf, more);
      var r := Decode(ty.elem, buf);
      ItemsExtend(ty, n - 1, r.rest, more, acc + [r.v]);
    }
  }

  lemma {:induction false} EntriesExtend(ty: Ty, n: nat, buf: seq<byte>, more: seq<byte>, keys: seq<Val>, vals: seq<Val>)
    requires ty.Dict? && DecodeEntries(ty, n, buf, keys, vals).Ok?
    ensures var r := DecodeEntries(ty, n, buf, keys, vals);
            DecodeEntries(ty, n, buf + more, keys, vals) == Ok(r.v, r.rest + more)
    decreases ty, 0, n
  {
    if n > 0 {
      Extends(ty.key, buf, more);
      var k := Decode(ty.key, buf);
      Extends(ty.value, k.rest, more);
      var v := Decode(ty.value, k.rest);
      if k.v in keys {
        EntriesExtend(ty, n - 1, v.rest, more, keys, vals);
      } else {
        EntriesExtend(ty, n - 1, v.rest, more, keys + [k.v], vals + [v.v]);
      }
    }
  }

  /** No strict prefix of what was written reads successfully. */
  lemma NoPrefixReads(ty: Ty, v: Val, n: nat)
    requires Typed(ty, v) && Short(v) && n < |Encode(ty, v)|
    ensures Decode(ty, Encode(ty, v)[..n]).Fail?
  {
    var whole := Encode(ty, v);
    RoundTrip(ty, v, []);
    assert whole + [] == whole && whole[..n] + whole[n..] == whole;
    if Decode(ty, whole[..n]).Ok? {
      Extends(ty, whole[..n], whole[n..]);
    }
  }

  /** Different values have different encodings. */
  lemma Injective(ty: Ty, v: Val, w: Val)
    requires Typed(ty, v) && Short(v) && Typed(ty, w) && Short(w) && Encode(ty, v) == Encode(ty, w)
    ensures v == w
  {
    RoundTrip(ty, v, []);
    RoundTrip(ty, w, []);
  }

  // ---- encodedSize

  function EncodedSize(ty: Ty, v: Val): nat
    requires Typed(ty, v)
    decreases ty, 1, 0
  {
    match ty
    case Scalar(w) => w.Size()
    case Bool => 1
    case Str => |v.bytes| + 4
    case Opt(of) => 1 + if v.Present? then EncodedSize(of, v.v) else 0
    case Pair(x, y) => EncodedSize(x, v.a) + EncodedSize(y, v.b2)
    case Tuple(tys) => PartsSize(tys, v.parts)
    case Vec(e) => 4 + if Trivial(e) then |v.items| * TrivialSize(e) else ItemsSize(ty, v.items)
    case Dict(k, x) =>
      4 + if Trivial(k) && Trivial(x) then (TrivialSize(k) + TrivialSize(x)) * |v.keys|
          else EntriesSize(ty, v.keys, v.vals)
  }

  function PartsSize(tys: seq<Ty>, vs: seq<Val>): nat
    requires |tys| == |vs| && forall i :: 0 <= i < |tys| ==> Typed(tys[i], vs[i])
    decreases tys, 0, 0
  {
    if tys == [] then 0 else EncodedSize(tys[0], vs[0]) + PartsSize(tys[1..], vs[1..])
  }

  function ItemsSize(ty: Ty, items: seq<Val>): nat
    requires ty.Vec? && forall i :: 0 <= i < |items| ==> Typed(ty.elem, items[i])
    decreases ty, 0, |items|
  {
    if items == [] then 0 else EncodedSize(ty.elem, items[0]) + ItemsSize(ty, items[1..])
  }

  function EntriesSize(ty: Ty, keys: seq<Val>, vals: seq<Val>): nat
    requires ty.Dict? && |keys| == |vals|
    requires forall i :: 0 <= i < |keys| ==> Typed(ty.key, keys[i])
    requires forall i :: 0 <= i < |vals| ==> Typed(ty.value, vals[i])
    decreases ty, 0, |keys|
  {
    if keys == [] then 0 else
    EncodedSize(ty.key, keys[0]) + EncodedSize(ty.value, vals[0]) + EntriesSize(ty, keys[1..], vals[1..])
  }

  /** encodedSize announces exactly the bytes written, by either of its formulas. */
  lemma {:induction false} SizeExact(ty: Ty, v: Val)
    requires Typed(ty, v)
    ensures |Encode(ty, v)| == EncodedSize(ty, v)
    decreases ty, 1, 0
  {
    match ty
    case Scalar(_) =>
    case Bool =>
    case Str =>
    case Opt(of) => if v.Present? { SizeExact(of, v.v); }
    case Pair(x, y) =>
      SizeExact(x, v.a);
      SizeExact(y, v.b2);
    case Tuple(tys) => PartsSizeExact(tys, v.parts);
    case Vec(e) => if !Trivial(e) { ItemsSizeExact(ty, v.items); }
    case Dict(k, x) =>
      EntriesSizeExact(ty, v.keys, v.vals);
      if Trivial(k) && Trivial(x) { EntriesFixed(ty, v.keys, v.vals); }
  }

  lemma {:induction false} PartsSizeExact(tys: seq<Ty>, vs: seq<Val>)
    requires |tys| == |vs| && forall i :: 0 <= i < |tys| ==> Typed(tys[i], vs[i])
    ensures |EncodeParts(tys, vs)| == PartsSize(tys, vs)
    decreases tys, 0, 0
  {
    if tys != [] {
      SizeExact(tys[0], vs[0]);
      PartsSizeExact(tys[1..], vs[1..]);
    }
  }

  lemma {:induction false} ItemsSizeExact(ty: Ty, items: seq<Val>)
    requires ty.Vec? && forall i :: 0 <= i < |items| ==> Typed(ty.elem, items[i])
    ensures |EncodeItems(ty, items)| == ItemsSize(ty, items)
    decreases ty, 0, |items|
  {
    if items != [] {
      SizeExact(ty.elem, items[0]);
      ItemsSizeExact(ty, items[1..]);
    }
  }

  lemma {:induction false} EntriesSizeExact(ty: Ty, keys: seq<Val>, vals: seq<Val>)
    requires ty.Dict? && |keys| == |vals|
    requires forall i :: 0 <= i < |keys| ==> Typed(ty.key, keys[i])
    requires forall i :: 0 <= i < |vals| ==> Typed(ty.value, vals[i])
    ensures |EncodeEntries(ty, keys, vals)| == EntriesSize(ty, keys, vals)
    decreases ty, 0, |keys|
  {
    if keys != [] {
      SizeExact(ty.key, keys[0]);
      SizeExact(ty.value, vals[0]);
      EntriesSizeExact(ty, keys[1..], vals[1..]);
    }
  }

  lemma {:induction false} EntriesFixed(ty: Ty, keys: seq<Val>, vals: seq<Val>)
    requires ty.Dict? && |keys| == |vals| && Trivial(ty.key) && Trivial(ty.value)
    requires forall i :: 0 <= i < |keys| ==> Typed(ty.key, keys[i])
    requires forall i :: 0 <= i < |vals| ==> Typed(ty.value, vals[i])
    ensures EntriesSize(ty, keys, vals) == (TrivialSize(ty.key) + TrivialSize(ty.value)) * |keys|
    decreases |keys|
  {
    if keys != [] {
      EntriesFixed(ty, keys[1..], vals[1..]);
      FixedSize(ty.key, keys[0]);
      FixedSize(ty.value, vals[0]);
      OneMore(TrivialSize(ty.key) + TrivialSize(ty.value), |keys[1..]|);
    }
  }

  lemma FixedSize(ty: Ty, v: Val)
    requires Trivial(ty) && Typed(ty, v)
    ensures EncodedSize(ty, v) == TrivialSize(ty)
  {
  }
}
