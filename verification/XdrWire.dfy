/** The wire format of RFC 4506, as a relation between values and bytes, and that the codec meets it. */
module XdrWire {
  import opened Wrappers
  import opened Xdr

  // ---------------------------------------------------------------- the format

  /** The number that bytes stand for, the most significant byte first. */
  function BigEndian(b: Bytes): nat {
    if b == [] then 0 else 256 * BigEndian(b[..|b| - 1]) + b[|b| - 1]
  }

  /** The data and up to three zero bytes, to a multiple of four (section 4.9 of RFC 4506). */
  predicate IsPadded(b: Bytes, data: Bytes) {
    && data <= b && |b| % 4 == 0 && |b| < |data| + 4
    && forall i :: |data| <= i < |b| ==> b[i] == 0
  }

  function Flat(parts: seq<Bytes>): Bytes {
    if parts == [] then [] else Flat(parts[..|parts| - 1]) + parts[|parts| - 1]
  }

  /** b is what the standard says v looks like: integers in two's complement (sections 4.1, 4.2 and 4.5),
      data behind its length (4.10, 4.11), items behind their number (4.13), members in order (4.14),
      optional data behind 0 or 1 (4.19).  Hypers are taken modulo 2^64, as the packer does. */
  ghost predicate Wire(s: Schema, v: Value, b: Bytes)
    decreases s
  {
    match s
    case Uint => v.Number? && |b| == 4 && BigEndian(b) == v.n
    case Int => v.Number? && -0x8000_0000 <= v.n < 0x8000_0000 && |b| == 4 && BigEndian(b) == v.n % 0x1_0000_0000
    case Hyper => v.Number? && |b| == 8 && BigEndian(b) == v.n % 0x1_0000_0000_0000_0000
    case Double => v.Float? && |b| == 8 && b == v.image
    case String => v.Data? && WireData(v.bytes, b)
    case Opaque => v.Data? && WireData(v.bytes, b)
    case FOpaque(length) => v.Data? && |v.bytes| == length && IsPadded(b, v.bytes)
    case Array(item) =>
      && v.Items? && |b| >= 4 && BigEndian(b[..4]) == |v.items|
      && exists parts: seq<Bytes> ::
           && |parts| == |v.items| && b[4..] == Flat(parts)
           && forall i :: 0 <= i < |parts| ==> Wire(item, v.items[i], parts[i])
    case Optional(item) =>
      if v.Nothing? then b == [0, 0, 0, 0] else |b| >= 4 && b[..4] == [0, 0, 0, 1] && Wire(item, v, b[4..])
    case Constant(item, value) => Wire(item, value, b)
    case Struct(names, handlers) =>
      && v.Fields? && |v.fields| == s.Arity()
      && exists parts: seq<Bytes> ::
           && |parts| == |v.fields| && b == Flat(parts)
           && forall i :: 0 <= i < |parts| ==> Wire(handlers[i], if names[i].None? then Nothing else v.fields[i], parts[i])
  }

  predicate WireData(data: Bytes, b: Bytes) {
    |b| >= 4 && BigEndian(b[..4]) == |data| && IsPadded(b[4..], data)
  }

  // ---------------------------------------------------------------- words

  lemma {:induction false} FourBytes(b: Bytes)
    requires |b| == 4
    ensures BigEndian(b) == (b[0] as int) * 0x100_0000 + (b[1] as int) * 0x1_0000 + (b[2] as int) * 256 + b[3] as int < TWO_32
  {
    assert b[..3][..2] == b[..2] && b[..2][..1] == b[..1] && b[..1][..0] == [];
    assert BigEndian(b[..1]) == b[0];
    assert BigEndian(b[..2]) == 256 * (b[0] as int) + b[1] as int;
    assert BigEndian(b[..3]) == 256 * (256 * (b[0] as int) + b[1] as int) + b[2] as int;
  }

  /** A word is the four bytes that stand for its number, and no others. */
  lemma {:induction false} WordExactly(n: int, b: Bytes)
    requires 0 <= n < TWO_32
    ensures b == Be32(n) <==> |b| == 4 && BigEndian(b) == n
  {
    Be32Inverse(n);
    FourBytes(Be32(n));
    if |b| == 4 && BigEndian(b) == n {
      FourBytes(b);
      SameWord(b, Be32(n));
    }
  }

  lemma {:induction false} SameWord(a: Bytes, b: Bytes)
    requires |a| == 4 && |b| == 4 && BigEndian(a) == BigEndian(b)
    ensures a == b
  {
    FourBytes(a);
    FourBytes(b);
    assert a[0] == b[0] && a[1] == b[1] && a[2] == b[2] && a[3] == b[3];
  }

  lemma {:induction false} BigEndianConcat(a: Bytes, b: Bytes)
    requires |b| == 4
    ensures BigEndian(a + b) == BigEndian(a) * TWO_32 + BigEndian(b)
  {
    FourBytes(b);
    var c := a + b;
    var n := |a|;
    assert c[..n + 3] == c[..|c| - 1] && c[..n + 3][..n + 2] == c[..n + 2];
    assert c[..n + 2][..n + 1] == c[..n + 1] && c[..n + 1][..n] == a;
    assert BigEndian(c[..n + 1]) == 256 * BigEndian(a) + b[0];
    assert BigEndian(c[..n + 2]) == 256 * (256 * BigEndian(a) + b[0]) + b[1];
    assert BigEndian(c[..n + 3]) == 256 * (256 * (256 * BigEndian(a) + b[0]) + b[1]) + b[2];
  }

  lemma {:induction false} UnsignedIsModulo(n: int)
    requires -TWO_31 <= n < TWO_31
    ensures Unsigned(n) == n % TWO_32
  {
  }

  lemma {:induction false} HyperExactly(n: int, b: Bytes)
    ensures EncodePrimitive(Hyper, Number(n)) == Some(b) <==> |b| == 8 && BigEndian(b) == n % TWO_64
  {
    var hi, lo := n % TWO_64 / TWO_32, n % TWO_32;
    WordsOf(n);
    WordExactly(hi, Be32(hi));
    WordExactly(lo, Be32(lo));
    BigEndianConcat(Be32(hi), Be32(lo));
    if |b| == 8 && BigEndian(b) == n % TWO_64 {
      assert b == b[..4] + b[4..];
      BigEndianConcat(b[..4], b[4..]);
      FourBytes(b[..4]);
      FourBytes(b[4..]);
      Quotients(BigEndian(b[..4]), BigEndian(b[4..]), hi, lo);
      WordExactly(hi, b[..4]);
      WordExactly(lo, b[4..]);
    }
  }

  lemma {:induction false} Quotients(a: nat, b: nat, c: nat, d: nat)
    requires b < TWO_32 && d < TWO_32 && a * TWO_32 + b == c * TWO_32 + d
    ensures a == c && b == d
  {
  }

  // ---------------------------------------------------------------- data

  lemma {:induction false} PaddedExactly(b: Bytes, data: Bytes)
    ensures b == Padded(data) <==> IsPadded(b, data)
  {
    var p := Padded(data);
    assert p[..|data|] == data;
    if IsPadded(b, data) {
      assert |b| == |p|;
      assert b[..|data|] == data;
      forall i | 0 <= i < |b| ensures b[i] == p[i] {
        assert i < |data| ==> b[i] == b[..|data|][i] && p[i] == p[..|data|][i];
      }
    }
  }

  lemma {:induction false} DataExactly(data: Bytes, b: Bytes)
    ensures EncodeOpaque(Data(data)) == Some(b) <==> WireData(data, b)
  {
    if |data| < TWO_32 {
      var all := Be32(|data|) + Padded(data);
      assert all[..4] == Be32(|data|) && all[4..] == Padded(data);
      if |b| >= 4 {
        assert b == b[..4] + b[4..];
        WordExactly(|data|, b[..4]);
        PaddedExactly(b[4..], data);
      }
      WordExactly(|data|, Be32(|data|));
      PaddedExactly(Padded(data), data);
    } else if |b| >= 4 {
      FourBytes(b[..4]);
    }
  }

  lemma {:induction false} PrimitiveExactly(s: Schema, v: Value, b: Bytes)
    requires !s.Array? && !s.Optional? && !s.Constant? && !s.Struct?
    ensures EncodePrimitive(s, v) == Some(b) <==> Wire(s, v, b)
  {
    match s
    case Int =>
      if v.Number? && -TWO_31 <= v.n < TWO_31 {
        UnsignedIsModulo(v.n);
        WordExactly(Unsigned(v.n), b);
      }
    case Uint =>
      if v.Number? && 0 <= v.n < TWO_32 {
        WordExactly(v.n, b);
      } else if |b| == 4 {
        FourBytes(b);
      }
    case Hyper =>
      if v.Number? {
        HyperExactly(v.n, b);
      }
    case Double =>
    case String => DataOf(v, b);
    case Opaque => DataOf(v, b);
    case FOpaque(_) =>
      if v.Data? {
        PaddedExactly(b, v.bytes);
      }
  }

  lemma {:induction false} DataOf(v: Value, b: Bytes)
    ensures EncodeOpaque(v) == Some(b) <==> v.Data? && WireData(v.bytes, b)
  {
    if v.Data? {
      DataExactly(v.bytes, b);
    }
  }

  // ---------------------------------------------------------------- everything

  /** The encodings of the first n items, one by one. */
  ghost predicate AreItems(item: Schema, items: seq<Value>, n: nat, parts: seq<Bytes>)
    requires n <= |items|
  {
    |parts| == n && forall i :: 0 <= i < n ==> Encode(item, items[i]) == Some(parts[i])
  }

  lemma {:induction false} ItemsInOrder(item: Schema, items: seq<Value>, n: nat, parts: seq<Bytes>)
    requires n <= |items| && AreItems(item, items, n, parts)
    ensures EncodeItems(item, items, n) == Some(Flat(parts))
    decreases n
  {
    if n > 0 {
      assert AreItems(item, items, n - 1, parts[..n - 1]);
      ItemsInOrder(item, items, n - 1, parts[..n - 1]);
    }
  }

  lemma {:induction false} ItemParts(item: Schema, items: seq<Value>, n: nat) returns (parts: seq<Bytes>)
    requires n <= |items| && EncodeItems(item, items, n).Some?
    ensures AreItems(item, items, n, parts)
    decreases n
  {
    parts := [];
    if n > 0 {
      var init := ItemParts(item, items, n - 1);
      parts := init + [Encode(item, items[n - 1]).value];
    }
  }

  ghost predicate AreMembers(names: seq<Option<string>>, handlers: seq<Schema>, fields: seq<Value>, n: nat, parts: seq<Bytes>)
    requires n <= |names| && n <= |handlers| && n <= |fields|
  {
    |parts| == n && forall i :: 0 <= i < n ==> Encode(handlers[i], FieldValue(names[i], fields[i])) == Some(parts[i])
  }

  lemma {:induction false} MembersInOrder(names: seq<Option<string>>, handlers: seq<Schema>, fields: seq<Value>, n: nat, parts: seq<Bytes>)
    requires n <= |names| && n <= |handlers| && n <= |fields| && AreMembers(names, handlers, fields, n, parts)
    ensures EncodeMembers(names, handlers, fields, n) == Some(Flat(parts))
    decreases n
  {
    if n > 0 {
      assert AreMembers(names, handlers, fields, n - 1, parts[..n - 1]);
      MembersInOrder(names, handlers, fields, n - 1, parts[..n - 1]);
    }
  }

  lemma {:induction false} MemberParts(names: seq<Option<string>>, handlers: seq<Schema>, fields: seq<Value>, n: nat) returns (parts: seq<Bytes>)
    requires n <= |names| && n <= |handlers| && n <= |fields| && EncodeMembers(names, handlers, fields, n).Some?
    ensures AreMembers(names, handlers, fields, n, parts)
    decreases n
  {
    parts := [];
    if n > 0 {
      var init := MemberParts(names, handlers, fields, n - 1);
      parts := init + [Encode(handlers[n - 1], FieldValue(names[n - 1], fields[n - 1])).value];
    }
  }

  lemma {:induction false} Headed(head: Bytes, tail: Bytes, b: Bytes)
    requires |head| == 4
    ensures b == head + tail <==> |b| >= 4 && b[..4] == head && b[4..] == tail
  {
    assert (head + tail)[..4] == head && (head + tail)[4..] == tail;
    if |b| >= 4 {
      assert b == b[..4] + b[4..];
    }
  }

  lemma {:induction false} ArrayOnWire(item: Schema, items: seq<Value>, b: Bytes)
    requires Encode(Array(item), Items(items)) == Some(b)
    ensures Wire(Array(item), Items(items), b)
    decreases item, 1
  {
    var parts := ItemParts(item, items, |items|);
    ItemsInOrder(item, items, |items|, parts);
    Headed(Be32(|items|), Flat(parts), b);
    WordExactly(|items|, b[..4]);
    forall i | 0 <= i < |parts| ensures Wire(item, items[i], parts[i]) {
      EncodeExactly(item, items[i], parts[i]);
    }
  }

  lemma {:induction false} WireOfItems(item: Schema, items: seq<Value>, parts: seq<Bytes>)
    requires |parts| == |items| && forall i :: 0 <= i < |parts| ==> Wire(item, items[i], parts[i])
    ensures EncodeItems(item, items, |items|) == Some(Flat(parts))
    decreases item, 1
  {
    forall i | 0 <= i < |parts| ensures Encode(item, items[i]) == Some(parts[i]) {
      EncodeExactly(item, items[i], parts[i]);
    }
    ItemsInOrder(item, items, |items|, parts);
  }

  lemma {:induction false} WireOfArray(item: Schema, items: seq<Value>, b: Bytes)
    requires Wire(Array(item), Items(items), b)
    ensures Encode(Array(item), Items(items)) == Some(b)
    decreases item, 2
  {
    var parts: seq<Bytes> :| |parts| == |items| && b[4..] == Flat(parts)
      && forall i :: 0 <= i < |parts| ==> Wire(item, items[i], parts[i]);
    WireOfItems(item, items, parts);
    FourBytes(b[..4]);
    WordExactly(|items|, b[..4]);
    Headed(Be32(|items|), Flat(parts), b);
  }

  lemma {:induction false} StructExactly(names: seq<Option<string>>, handlers: seq<Schema>, v: Value, b: Bytes)
    ensures Encode(Struct(names, handlers), v) == Some(b) <==> Wire(Struct(names, handlers), v, b)
    decreases handlers, 1
  {
    var s := Struct(names, handlers);
    if v.Fields? && |v.fields| == s.Arity() {
      if Encode(s, v) == Some(b) {
        var parts := MemberParts(names, handlers, v.fields, s.Arity());
        MembersInOrder(names, handlers, v.fields, s.Arity(), parts);
        forall i | 0 <= i < |parts| ensures Wire(handlers[i], if names[i].None? then Nothing else v.fields[i], parts[i]) {
          EncodeExactly(handlers[i], FieldValue(names[i], v.fields[i]), parts[i]);
        }
      }
      if Wire(s, v, b) {
        var parts: seq<Bytes> :| |parts| == |v.fields| && b == Flat(parts)
          && forall i :: 0 <= i < |parts| ==> Wire(handlers[i], if names[i].None? then Nothing else v.fields[i], parts[i]);
        forall i | 0 <= i < |parts| ensures Encode(handlers[i], FieldValue(names[i], v.fields[i])) == Some(parts[i]) {
          EncodeExactly(handlers[i], FieldValue(names[i], v.fields[i]), parts[i]);
        }
        MembersInOrder(names, handlers, v.fields, s.Arity(), parts);
      }
    }
  }

  /** The codec yields, for every schema and value, exactly the bytes of the standard, and refuses
      exactly the values for which the standard has none. */
  lemma {:induction false} EncodeExactly(s: Schema, v: Value, b: Bytes)
    ensures Encode(s, v) == Some(b) <==> Wire(s, v, b)
    decreases s, 0
  {
    match s
    case Array(item) =>
      if Encode(s, v) == Some(b) {
        ArrayOnWire(item, v.items, b);
      }
      if Wire(s, v, b) {
        WireOfArray(item, v.items, b);
      }
    case Optional(item) =>
      WordExactly(0, Be32(0));
      WordExactly(1, Be32(1));
      assert Be32(0) == [0, 0, 0, 0] && Be32(1) == [0, 0, 0, 1];
      if !v.Nothing? {
        var rest := if |b| >= 4 then b[4..] else [];
        EncodeExactly(item, v, rest);
        if Encode(item, v).Some? {
          Headed([0, 0, 0, 1], Encode(item, v).value, b);
        }
      }
    case Constant(item, value) => EncodeExactly(item, value, b);
    case Struct(names, handlers) => StructExactly(names, handlers, v, b);
    case _ => PrimitiveExactly(s, v, b);
  }

  // ---------------------------------------------------------------- and nothing less

  /** A word is there or the data ends. */
  lemma {:induction false} TruncatedAfterWord(n: int, tail: Bytes, k: nat)
    requires 0 <= n < TWO_32 && k < 4 + |tail|
    ensures TakeUint((Be32(n) + tail)[..k]) == if k < 4 then Err(EndOfData) else Ok((n, tail[..k - 4]))
  {
    if k >= 4 {
      assert (Be32(n) + tail)[..k] == Be32(n) + tail[..k - 4];
      TakeUintInverse(n, tail[..k - 4]);
    }
  }

  lemma {:induction false} TruncatedPrimitive(s: Schema, v: Value, k: nat)
    requires EncodePrimitive(s, v).Some? && k < |EncodePrimitive(s, v).value|
    ensures DecodePrimitive(s, EncodePrimitive(s, v).value[..k]) == Err(EndOfData)
  {
    match s
    case Hyper =>
      WordsOf(v.n);
      var lo := Be32(v.n % TWO_32);
      TruncatedAfterWord(v.n % TWO_64 / TWO_32, lo, k);
    case String => TruncatedAfterWord(|v.bytes|, Padded(v.bytes), k);
    case Opaque => TruncatedAfterWord(|v.bytes|, Padded(v.bytes), k);
    case _ =>
  }

  lemma {:induction false} TruncatedItems(item: Schema, items: seq<Value>, n: nat, k: nat)
    requires n <= |items| && EncodeItems(item, items, n).Some? && k < |EncodeItems(item, items, n).value|
    ensures DecodeItems(item, n, EncodeItems(item, items, n).value[..k]) == Err(EndOfData)
    decreases item, 1, n
  {
    var init, last := EncodeItems(item, items, n - 1).value, Encode(item, items[n - 1]).value;
    if k < |init| {
      assert (init + last)[..k] == init[..k];
      TruncatedItems(item, items, n - 1, k);
    } else {
      assert (init + last)[..k] == init + last[..k - |init|];
      ItemsRoundTrip(item, items, n - 1, last[..k - |init|]);
      Truncated(item, items[n - 1], k - |init|);
    }
  }

  lemma {:induction false} TruncatedMembers(names: seq<Option<string>>, handlers: seq<Schema>, fields: seq<Value>, n: nat, k: nat)
    requires n <= |names| && n <= |handlers| && n <= |fields| && EncodeMembers(names, handlers, fields, n).Some?
    requires k < |EncodeMembers(names, handlers, fields, n).value|
    ensures DecodeMembers(names, handlers, n, EncodeMembers(names, handlers, fields, n).value[..k]) == Err(EndOfData)
    decreases handlers, 1, n
  {
    var field := FieldValue(names[n - 1], fields[n - 1]);
    var init, last := EncodeMembers(names, handlers, fields, n - 1).value, Encode(handlers[n - 1], field).value;
    if k < |init| {
      assert (init + last)[..k] == init[..k];
      TruncatedMembers(names, handlers, fields, n - 1, k);
    } else {
      assert (init + last)[..k] == init + last[..k - |init|];
      MembersRoundTrip(names, handlers, fields, n - 1, last[..k - |init|]);
      Truncated(handlers[n - 1], field, k - |init|);
    }
  }

  /** However an encoding is cut short, decoding it fails for want of data. */
  lemma {:induction false} Truncated(s: Schema, v: Value, k: nat)
    requires Encode(s, v).Some? && k < |Encode(s, v).value|
    ensures Decode(s, Encode(s, v).value[..k]) == Err(EndOfData)
    decreases s, 0
  {
    match s
    case Array(item) =>
      var body := EncodeItems(item, v.items, |v.items|).value;
      TruncatedAfterWord(|v.items|, body, k);
      if k >= 4 {
        TruncatedItems(item, v.items, |v.items|, k - 4);
      }
    case Optional(item) =>
      if v.Nothing? {
      } else {
        var body := Encode(item, v).value;
        TruncatedAfterWord(1, body, k);
        if k >= 4 {
          Truncated(item, v, k - 4);
        }
      }
    case Constant(item, value) => Truncated(item, value, k);
    case Struct(names, handlers) => TruncatedMembers(names, handlers, v.fields, s.Arity(), k);
    case _ => TruncatedPrimitive(s, v, k);
  }

  // ---------------------------------------------------------------- some of them

  lemma {:induction false} Words()
    ensures Be32(1) == [0, 0, 0, 1] && Be32(2) == [0, 0, 0, 2] && Be32(3) == [0, 0, 0, 3] && Be32(7) == [0, 0, 0, 7]
    ensures Be32(0) == [0, 0, 0, 0] && Be32(0x0A0B_0C0D) == [10, 11, 12, 13]
    ensures Be32(TWO_32 - 1) == [255, 255, 255, 255] && Be32(TWO_32 - 2) == [255, 255, 255, 254]
  {
  }

  lemma {:induction false} Vectors()
    ensures Encode(Uint, Number(1)) == Some([0, 0, 0, 1])
    ensures Encode(Uint, Number(0x0A0B_0C0D)) == Some([10, 11, 12, 13])
    ensures Encode(Int, Number(-2)) == Some([255, 255, 255, 254])
    ensures Encode(Hyper, Number(-1)) == Some([255, 255, 255, 255, 255, 255, 255, 255])
    ensures Encode(Optional(Uint), Nothing) == Some([0, 0, 0, 0])
    ensures Encode(Optional(Uint), Number(7)) == Some([0, 0, 0, 1, 0, 0, 0, 7])
  {
    Words();
    assert -1 % TWO_64 == TWO_64 - 1 && (TWO_64 - 1) / TWO_32 == TWO_32 - 1 && -1 % TWO_32 == TWO_32 - 1;
    assert [255, 255, 255, 255] + [255, 255, 255, 255] == [255, 255, 255, 255, 255, 255, 255, 255];
    assert [0, 0, 0, 1] + [0, 0, 0, 7] == [0, 0, 0, 1, 0, 0, 0, 7];
  }

  lemma {:induction false} DataVector()
    ensures Encode(String, Data([104, 105])) == Some([0, 0, 0, 2, 104, 105, 0, 0])
    ensures Encode(FOpaque(5), Data([1, 2, 3, 4, 5])) == Some([1, 2, 3, 4, 5, 0, 0, 0])
  {
    Words();
    assert PadLength(2) == 2 && PadLength(5) == 3;
    assert Padded([104, 105]) == [104, 105, 0, 0] && Padded([1, 2, 3, 4, 5]) == [1, 2, 3, 4, 5, 0, 0, 0];
    assert [0, 0, 0, 2] + [104, 105, 0, 0] == [0, 0, 0, 2, 104, 105, 0, 0];
  }

  lemma {:induction false} ArrayVector()
    ensures Encode(Array(Uint), Items([Number(1), Number(2)])) == Some([0, 0, 0, 2, 0, 0, 0, 1, 0, 0, 0, 2])
  {
    Words();
    var items := [Number(1), Number(2)];
    assert EncodeItems(Uint, items, 0) == Some([]);
    assert EncodeItems(Uint, items, 1) == Some([] + [0, 0, 0, 1]);
    assert EncodeItems(Uint, items, 2) == Some([] + [0, 0, 0, 1] + [0, 0, 0, 2]);
    assert [0, 0, 0, 2] + ([] + [0, 0, 0, 1] + [0, 0, 0, 2]) == [0, 0, 0, 2, 0, 0, 0, 1, 0, 0, 0, 2];
  }
}
