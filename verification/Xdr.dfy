/** The schema-directed XDR codec (RFC 4506, sections 4.1, 4.2, 4.4, 4.5, 4.7, 4.9 to 4.11,
    4.13, 4.14 and 4.19). */
module Xdr {
  import opened Wrappers

  datatype Schema =
    | Int | Uint | Hyper | Double
    | String                                  // as its UTF-8 bytes
    | Opaque
    | FOpaque(length: nat)
    | Array(item: Schema)
    | Optional(item: Schema)
    | Constant(item: Schema, value: Value)
    | Struct(names: seq<Option<string>>, handlers: seq<Schema>)
  {
    /** zip() pairs names with handlers and ignores what is left over. */
    function Arity(): nat
      requires Struct?
    {
      if |names| < |handlers| then |names| else |handlers|
    }
  }

  /** A struct value has one field a member; a nameless member is packed from None and
      dropped when unpacked. */
  datatype Value =
    | Number(n: int)
    | Float(image: Bytes)   // the IEEE 754 image, 8 bytes
    | Data(bytes: Bytes)
    | Items(items: seq<Value>)
    | Nothing
    | Fields(fields: seq<Value>)

  datatype DecodeError = EndOfData | Malformed

  const TWO_31 := 0x8000_0000
  const TWO_32 := 0x1_0000_0000
  const TWO_63 := 0x8000_0000_0000_0000
  const TWO_64 := 0x1_0000_0000_0000_0000

  // ---------------------------------------------------------------- primitives

  function Be32(n: int): (b: Bytes)
    requires 0 <= n < TWO_32
    ensures |b| == 4
  {
    [n / 256 / 256 / 256, n / 256 / 256 % 256, n / 256 % 256, n % 256]
  }

  function FromBe32(b: Bytes): (n: int)
    requires |b| == 4
    ensures 0 <= n < TWO_32
  {
    (b[0] as int) * 0x100_0000 + (b[1] as int) * 0x1_0000 + (b[2] as int) * 256 + b[3] as int
  }

  lemma {:induction false} Be32Inverse(n: int)
    requires 0 <= n < TWO_32
    ensures FromBe32(Be32(n)) == n
  {
    var high, mid := n / 256 / 256, n / 256;
    assert high == high / 256 * 256 + high % 256;
    assert mid == high * 256 + mid % 256;
  }

  function PadLength(n: nat): (p: nat)
    ensures p < 4 && (n + p) % 4 == 0
  {
    (4 - n % 4) % 4
  }

  function Padded(data: Bytes): (b: Bytes)
    ensures |b| % 4 == 0
  {
    data + seq(PadLength(|data|), _ => 0)
  }

  function Unsigned(n: int): int {
    if n < 0 then n + TWO_32 else n
  }

  function Signed(n: int, half: int): int {
    if n < half then n else n - 2 * half
  }

  function TakeUint(b: Bytes): Result<(int, Bytes), DecodeError> {
    if |b| < 4 then Err(EndOfData) else Ok((FromBe32(b[..4]), b[4..]))
  }

  function TakeFixed(n: nat, b: Bytes): Result<(Bytes, Bytes), DecodeError> {
    var end := n + PadLength(n);
    if |b| < end then Err(EndOfData) else Ok((b[..n], b[end..]))
  }

  function TakeOpaque(b: Bytes): Result<(Bytes, Bytes), DecodeError> {
    match TakeUint(b)
    case Err(e) => Err(e)
    case Ok((n, rest)) => TakeFixed(n, rest)
  }

  // ---------------------------------------------------------------- handlers, as functions

  /** The primitive handlers.  None stands for XDREncodingError. */
  function EncodePrimitive(s: Schema, v: Value): Option<Bytes> {
    match s
    case Int => if v.Number? && -TWO_31 <= v.n < TWO_31 then Some(Be32(Unsigned(v.n))) else None
    case Uint => if v.Number? && 0 <= v.n < TWO_32 then Some(Be32(v.n)) else None
    case Hyper =>
      if v.Number? then Some(Be32(v.n % TWO_64 / TWO_32) + Be32(v.n % TWO_32)) else None  // the Packer masks
    case Double => if v.Float? && |v.image| == 8 then Some(v.image) else None
    case String => EncodeOpaque(v)
    case Opaque => EncodeOpaque(v)
    case FOpaque(length) => if v.Data? && |v.bytes| == length then Some(Padded(v.bytes)) else None
    case _ => None
  }

  function Encode(s: Schema, v: Value): Option<Bytes>
    decreases s, 0
  {
    match s
    case Array(item) =>
      if v.Items? && |v.items| < TWO_32 then Join(Some(Be32(|v.items|)), EncodeItems(item, v.items, |v.items|)) else None
    case Optional(item) => if v.Nothing? then Some(Be32(0)) else Join(Some(Be32(1)), Encode(item, v))
    case Constant(item, value) => Encode(item, value)
    case Struct(names, handlers) =>
      if v.Fields? && |v.fields| == s.Arity() then EncodeMembers(names, handlers, v.fields, s.Arity()) else None
    case _ => EncodePrimitive(s, v)
  }

  function EncodeOpaque(v: Value): Option<Bytes> {
    if v.Data? && |v.bytes| < TWO_32 then Some(Be32(|v.bytes|) + Padded(v.bytes)) else None
  }

  function Join(a: Option<Bytes>, b: Option<Bytes>): Option<Bytes> {
    if a.Some? && b.Some? then Some(a.value + b.value) else None
  }

  function EncodeItems(item: Schema, items: seq<Value>, n: nat): Option<Bytes>
    requires n <= |items|
    decreases item, 1, n
  {
    if n == 0 then Some([])
    else Join(EncodeItems(item, items, n - 1), Encode(item, items[n - 1]))
  }

  function FieldValue(name: Option<string>, field: Value): Value {
    if name.None? then Nothing else field
  }

  function EncodeMembers(names: seq<Option<string>>, handlers: seq<Schema>, fields: seq<Value>, n: nat): Option<Bytes>
    requires n <= |names| && n <= |handlers| && n <= |fields|
    decreases handlers, 1, n
  {
    if n == 0 then Some([])
    else Join(EncodeMembers(names, handlers, fields, n - 1), Encode(handlers[n - 1], FieldValue(names[n - 1], fields[n - 1])))
  }

  function DecodePrimitive(s: Schema, b: Bytes): Result<(Value, Bytes), DecodeError> {
    match s
    case Int =>
      (match TakeUint(b) case Err(e) => Err(e) case Ok((n, rest)) => Ok((Number(Signed(n, TWO_31)), rest)))
    case Uint =>
      (match TakeUint(b) case Err(e) => Err(e) case Ok((n, rest)) => Ok((Number(n), rest)))
    case Hyper =>
      (match TakeUint(b)
       case Err(e) => Err(e)
       case Ok((hi, rest)) =>
         match TakeUint(rest)
         case Err(e) => Err(e)
         case Ok((lo, rest')) => Ok((Number(Signed(hi * TWO_32 + lo, TWO_63)), rest')))
    case Double => if |b| < 8 then Err(EndOfData) else Ok((Float(b[..8]), b[8..]))
    case String => DecodeOpaque(TakeOpaque(b))
    case Opaque => DecodeOpaque(TakeOpaque(b))
    case FOpaque(length) => DecodeOpaque(TakeFixed(length, b))
    case _ => Err(Malformed)
  }

  function Decode(s: Schema, b: Bytes): Result<(Value, Bytes), DecodeError>
    decreases s, 0
  {
    match s
    case Array(item) =>
      (match TakeUint(b)
       case Err(e) => Err(e)
       case Ok((n, rest)) =>
         match DecodeItems(item, n, rest)
         case Err(e) => Err(e)
         case Ok((items, rest')) => Ok((Items(items), rest')))
    case Optional(item) =>
      (match TakeUint(b)
       case Err(e) => Err(e)
       case Ok((flag, rest)) => if flag != 0 then Decode(item, rest) else Ok((Nothing, rest)))
    case Constant(item, value) =>
      (match Decode(item, b) case Err(e) => Err(e) case Ok((_, rest)) => Ok((value, rest)))
    case Struct(names, handlers) =>
      (match DecodeMembers(names, handlers, s.Arity(), b)
       case Err(e) => Err(e)
       case Ok((fields, rest)) => Ok((Fields(fields), rest)))
    case _ => DecodePrimitive(s, b)
  }

  function DecodeOpaque(r: Result<(Bytes, Bytes), DecodeError>): Result<(Value, Bytes), DecodeError> {
    match r
    case Err(e) => Err(e)
    case Ok((data, rest)) => Ok((Data(data), rest))
  }

  function DecodeItems(item: Schema, n: nat, b: Bytes): Result<(seq<Value>, Bytes), DecodeError>
    decreases item, 1, n
  {
    if n == 0 then Ok(([], b))
    else
      match DecodeItems(item, n - 1, b)
      case Err(e) => Err(e)
      case Ok((items, rest)) =>
        match Decode(item, rest)
        case Err(e) => Err(e)
        case Ok((v, rest')) => Ok((items + [v], rest'))
  }

  function DecodeMembers(names: seq<Option<string>>, handlers: seq<Schema>, n: nat, b: Bytes): Result<(seq<Value>, Bytes), DecodeError>
    requires n <= |names| && n <= |handlers|
    decreases handlers, 1, n
  {
    if n == 0 then Ok(([], b))
    else
      match DecodeMembers(names, handlers, n - 1, b)
      case Err(e) => Err(e)
      case Ok((fields, rest)) =>
        match Decode(handlers[n - 1], rest)
        case Err(e) => Err(e)
        case Ok((v, rest')) => Ok((fields + [FieldValue(names[n - 1], v)], rest'))
  }

  // ---------------------------------------------------------------- round trip

  /** What a value comes back as: constants take their declared value, and a hyper wraps. */
  function Canon(s: Schema, v: Value): Value
    decreases s, 0
  {
    match s
    case Hyper => if v.Number? then Number(Signed(v.n % TWO_64, TWO_63)) else v
    case Array(item) => if v.Items? then Items(CanonItems(item, v.items, |v.items|)) else v
    case Optional(item) => if v.Nothing? then v else Canon(item, v)
    case Constant(_, value) => value
    case Struct(names, handlers) =>
      if v.Fields? && |v.fields| == s.Arity() then Fields(CanonMembers(names, handlers, v.fields, s.Arity())) else v
    case _ => v
  }

  function CanonItems(item: Schema, items: seq<Value>, n: nat): seq<Value>
    requires n <= |items|
    decreases item, 1, n
  {
    if n == 0 then [] else CanonItems(item, items, n - 1) + [Canon(item, items[n - 1])]
  }

  function CanonMembers(names: seq<Option<string>>, handlers: seq<Schema>, fields: seq<Value>, n: nat): seq<Value>
    requires n <= |names| && n <= |handlers| && n <= |fields|
    decreases handlers, 1, n
  {
    if n == 0 then []
    else
      var v := Canon(handlers[n - 1], FieldValue(names[n - 1], fields[n - 1]));
      CanonMembers(names, handlers, fields, n - 1) + [FieldValue(names[n - 1], v)]
  }

  lemma {:induction false} TakeUintInverse(n: int, suffix: Bytes)
    requires 0 <= n < TWO_32
    ensures TakeUint(Be32(n) + suffix) == Ok((n, suffix))
  {
    Be32Inverse(n);
    assert (Be32(n) + suffix)[..4] == Be32(n);
    assert (Be32(n) + suffix)[4..] == suffix;
  }

  lemma {:induction false} TakeFixedInverse(data: Bytes, suffix: Bytes)
    ensures TakeFixed(|data|, Padded(data) + suffix) == Ok((data, suffix))
  {
    var all := Padded(data) + suffix;
    assert all[..|data|] == data;
    assert all[|data| + PadLength(|data|)..] == suffix;
  }

  lemma {:induction false} OpaqueInverse(v: Value, suffix: Bytes)
    requires EncodeOpaque(v).Some?
    ensures TakeOpaque(EncodeOpaque(v).value + suffix) == Ok((v.bytes, suffix))
  {
    var head, body := Be32(|v.bytes|), Padded(v.bytes);
    assert head + body + suffix == head + (body + suffix);
    TakeUintInverse(|v.bytes|, body + suffix);
    TakeFixedInverse(v.bytes, suffix);
  }

  lemma {:induction false} OpaqueAligned(v: Value)
    requires EncodeOpaque(v).Some?
    ensures |EncodeOpaque(v).value| % 4 == 0
  {
    Aligned(Be32(|v.bytes|), Padded(v.bytes));
  }

  lemma {:induction false} TwoWords(hi: int, lo: int, suffix: Bytes)
    requires 0 <= hi < TWO_32 && 0 <= lo < TWO_32
    ensures DecodePrimitive(Hyper, Be32(hi) + Be32(lo) + suffix) == Ok((Number(Signed(hi * TWO_32 + lo, TWO_63)), suffix))
  {
    assert Be32(hi) + Be32(lo) + suffix == Be32(hi) + (Be32(lo) + suffix);
    TakeUintInverse(hi, Be32(lo) + suffix);
    TakeUintInverse(lo, suffix);
  }

  lemma {:induction false} WordsOf(n: int)
    ensures 0 <= n % TWO_64 / TWO_32 < TWO_32 && n % TWO_64 / TWO_32 * TWO_32 + n % TWO_32 == n % TWO_64
  {
  }

  lemma {:induction false} HyperInverse(n: int, suffix: Bytes)
    ensures var b := EncodePrimitive(Hyper, Number(n)).value;
            DecodePrimitive(Hyper, b + suffix) == Ok((Canon(Hyper, Number(n)), suffix))
  {
    WordsOf(n);
    TwoWords(n % TWO_64 / TWO_32, n % TWO_32, suffix);
  }

  lemma {:induction false} PrimitiveRoundTrip(s: Schema, v: Value, suffix: Bytes)
    requires EncodePrimitive(s, v).Some?
    ensures DecodePrimitive(s, EncodePrimitive(s, v).value + suffix) == Ok((Canon(s, v), suffix))
  {
    var b := EncodePrimitive(s, v).value;
    match s
    case Int => TakeUintInverse(Unsigned(v.n), suffix);
    case Uint => TakeUintInverse(v.n, suffix);
    case Hyper => HyperInverse(v.n, suffix);
    case Double =>
      assert (b + suffix)[..8] == b && (b + suffix)[8..] == suffix;
    case String => OpaqueInverse(v, suffix);
    case Opaque => OpaqueInverse(v, suffix);
    case FOpaque(_) => TakeFixedInverse(v.bytes, suffix);
  }

  /** Decoding an encoding followed by anything returns the value and exactly what followed:
      for all schemas and values. */
  lemma {:induction false} RoundTrip(s: Schema, v: Value, suffix: Bytes)
    requires Encode(s, v).Some?
    ensures Decode(s, Encode(s, v).value + suffix) == Ok((Canon(s, v), suffix))
    decreases s, 0
  {
    var b := Encode(s, v).value;
    match s
    case Array(item) =>
      var body := EncodeItems(item, v.items, |v.items|).value;
      assert b + suffix == Be32(|v.items|) + (body + suffix);
      TakeUintInverse(|v.items|, body + suffix);
      ItemsRoundTrip(item, v.items, |v.items|, suffix);
    case Optional(item) =>
      if v.Nothing? {
        TakeUintInverse(0, suffix);
      } else {
        var body := Encode(item, v).value;
        assert b + suffix == Be32(1) + (body + suffix);
        TakeUintInverse(1, body + suffix);
        RoundTrip(item, v, suffix);
      }
    case Constant(item, value) => RoundTrip(item, value, suffix);
    case Struct(names, handlers) => MembersRoundTrip(names, handlers, v.fields, s.Arity(), suffix);
    case _ => PrimitiveRoundTrip(s, v, suffix);
  }

  /** One more item after the first n - 1. */
  lemma {:induction false} ItemStep(item: Schema, items: seq<Value>, n: nat, init: Bytes, last: Bytes, suffix: Bytes)
    requires 0 < n <= |items|
    requires EncodeItems(item, items, n - 1) == Some(init) && Encode(item, items[n - 1]) == Some(last)
    requires DecodeItems(item, n - 1, init + (last + suffix)) == Ok((CanonItems(item, items, n - 1), last + suffix))
    requires Decode(item, last + suffix) == Ok((Canon(item, items[n - 1]), suffix))
    ensures EncodeItems(item, items, n) == Some(init + last)
    ensures DecodeItems(item, n, init + last + suffix) == Ok((CanonItems(item, items, n), suffix))
  {
    assert init + last + suffix == init + (last + suffix);
  }

  lemma {:induction false} ItemsRoundTrip(item: Schema, items: seq<Value>, n: nat, suffix: Bytes)
    requires n <= |items| && EncodeItems(item, items, n).Some?
    ensures DecodeItems(item, n, EncodeItems(item, items, n).value + suffix) == Ok((CanonItems(item, items, n), suffix))
    decreases item, 1, n
  {
    if n == 0 {
      assert [] + suffix == suffix;
    } else {
      var init, last := EncodeItems(item, items, n - 1).value, Encode(item, items[n - 1]).value;
      ItemsRoundTrip(item, items, n - 1, last + suffix);
      RoundTrip(item, items[n - 1], suffix);
      ItemStep(item, items, n, init, last, suffix);
    }
  }

  lemma {:induction false} MembersRoundTrip(names: seq<Option<string>>, handlers: seq<Schema>, fields: seq<Value>, n: nat, suffix: Bytes)
    requires n <= |names| && n <= |handlers| && n <= |fields| && EncodeMembers(names, handlers, fields, n).Some?
    ensures DecodeMembers(names, handlers, n, EncodeMembers(names, handlers, fields, n).value + suffix)
            == Ok((CanonMembers(names, handlers, fields, n), suffix))
    decreases handlers, 1, n
  {
    if n == 0 {
      assert [] + suffix == suffix;
    } else {
      var s, field := handlers[n - 1], FieldValue(names[n - 1], fields[n - 1]);
      var init, last := EncodeMembers(names, handlers, fields, n - 1).value, Encode(s, field).value;
      assert init + last + suffix == init + (last + suffix);
      MembersRoundTrip(names, handlers, fields, n - 1, last + suffix);
      RoundTrip(s, field, suffix);
    }
  }

  // ---------------------------------------------------------------- alignment

  lemma {:induction false} Aligned(a: Bytes, b: Bytes)
    requires |a| % 4 == 0 && |b| % 4 == 0
    ensures |a + b| % 4 == 0
  {
  }

  lemma {:induction false} PrimitiveWholeWords(s: Schema, v: Value)
    requires EncodePrimitive(s, v).Some?
    ensures |EncodePrimitive(s, v).value| % 4 == 0
  {
    match s
    case String => OpaqueAligned(v);
    case Opaque => OpaqueAligned(v);
    case _ =>
  }

  /** Every encoding is a multiple of four bytes long. */
  lemma {:induction false} WholeWords(s: Schema, v: Value)
    requires Encode(s, v).Some?
    ensures |Encode(s, v).value| % 4 == 0
    decreases s, 0
  {
    match s
    case Array(item) =>
      ItemsWholeWords(item, v.items, |v.items|);
      Aligned(Be32(|v.items|), EncodeItems(item, v.items, |v.items|).value);
    case Optional(item) =>
      if !v.Nothing? {
        WholeWords(item, v);
        Aligned(Be32(1), Encode(item, v).value);
      }
    case Constant(item, value) => WholeWords(item, value);
    case Struct(names, handlers) => MembersWholeWords(names, handlers, v.fields, s.Arity());
    case _ => PrimitiveWholeWords(s, v);
  }

  lemma {:induction false} ItemsWholeWords(item: Schema, items: seq<Value>, n: nat)
    requires n <= |items| && EncodeItems(item, items, n).Some?
    ensures |EncodeItems(item, items, n).value| % 4 == 0
    decreases item, 1, n
  {
    if n > 0 {
      ItemsWholeWords(item, items, n - 1);
      WholeWords(item, items[n - 1]);
      Aligned(EncodeItems(item, items, n - 1).value, Encode(item, items[n - 1]).value);
    }
  }

  lemma {:induction false} MembersWholeWords(names: seq<Option<string>>, handlers: seq<Schema>, fields: seq<Value>, n: nat)
    requires n <= |names| && n <= |handlers| && n <= |fields| && EncodeMembers(names, handlers, fields, n).Some?
    ensures |EncodeMembers(names, handlers, fields, n).value| % 4 == 0
    decreases handlers, 1, n
  {
    if n > 0 {
      var field := FieldValue(names[n - 1], fields[n - 1]);
      MembersWholeWords(names, handlers, fields, n - 1);
      WholeWords(handlers[n - 1], field);
      Aligned(EncodeMembers(names, handlers, fields, n - 1).value, Encode(handlers[n - 1], field).value);
    }
  }

  /** XDRStruct.decode(): the whole of the data, nothing left over. */
  function DecodeAll(s: Schema, b: Bytes): Result<Value, DecodeError> {
    match Decode(s, b)
    case Err(e) => Err(e)
    case Ok((v, rest)) => if rest == [] then Ok(v) else Err(Malformed)
  }

  lemma {:induction false} WholeRoundTrip(s: Schema, v: Value)
    requires Encode(s, v).Some?
    ensures DecodeAll(s, Encode(s, v).value) == Ok(Canon(s, v))
  {
    RoundTrip(s, v, []);
    assert Encode(s, v).value + [] == Encode(s, v).value;
  }

  /** No encoding is a proper prefix of another of the same schema, and values that encode
      alike are decoded alike. */
  lemma {:induction false} SelfDelimiting(s: Schema, v: Value, w: Value, suffix: Bytes)
    requires Encode(s, v).Some? && Encode(s, w).Some?
    requires Encode(s, w).value == Encode(s, v).value + suffix
    ensures suffix == [] && Canon(s, v) == Canon(s, w)
  {
    RoundTrip(s, v, suffix);
    RoundTrip(s, w, []);
    assert Encode(s, w).value + [] == Encode(s, w).value;
  }

  /** Constants hold their declared value, nameless fields are None, and hypers fit 64 bits. */
  predicate Exact(s: Schema, v: Value)
    decreases s, 0
  {
    match s
    case Hyper => v.Number? && -TWO_63 <= v.n < TWO_63
    case Array(item) => v.Items? && forall i :: 0 <= i < |v.items| ==> Exact(item, v.items[i])
    case Optional(item) => v.Nothing? || Exact(item, v)
    case Constant(_, value) => v == value
    case Struct(names, handlers) =>
      && v.Fields? && |v.fields| == s.Arity()
      && forall i :: 0 <= i < |v.fields| ==>
           if names[i].None? then v.fields[i] == Nothing else Exact(handlers[i], v.fields[i])
    case _ => true
  }

  lemma {:induction false} CanonItemsAt(item: Schema, items: seq<Value>, n: nat)
    requires n <= |items|
    ensures |CanonItems(item, items, n)| == n
    ensures forall i :: 0 <= i < n ==> CanonItems(item, items, n)[i] == Canon(item, items[i])
  {
    if n > 0 {
      CanonItemsAt(item, items, n - 1);
    }
  }

  lemma {:induction false} CanonMembersAt(names: seq<Option<string>>, handlers: seq<Schema>, fields: seq<Value>, n: nat)
    requires n <= |names| && n <= |handlers| && n <= |fields|
    ensures |CanonMembers(names, handlers, fields, n)| == n
    ensures forall i :: 0 <= i < n ==>
      CanonMembers(names, handlers, fields, n)[i] == if names[i].None? then Nothing else Canon(handlers[i], fields[i])
  {
    if n > 0 {
      CanonMembersAt(names, handlers, fields, n - 1);
    }
  }

  lemma {:induction false} EncodableItems(item: Schema, items: seq<Value>, n: nat)
    requires n <= |items| && EncodeItems(item, items, n).Some?
    ensures forall i :: 0 <= i < n ==> Encode(item, items[i]).Some?
  {
    if n > 0 {
      EncodableItems(item, items, n - 1);
    }
  }

  lemma {:induction false} EncodableMembers(names: seq<Option<string>>, handlers: seq<Schema>, fields: seq<Value>, n: nat)
    requires n <= |names| && n <= |handlers| && n <= |fields| && EncodeMembers(names, handlers, fields, n).Some?
    ensures forall i :: 0 <= i < n ==> Encode(handlers[i], FieldValue(names[i], fields[i])).Some?
  {
    if n > 0 {
      EncodableMembers(names, handlers, fields, n - 1);
    }
  }

  lemma {:induction false} ItemsAreIdentity(item: Schema, items: seq<Value>)
    requires forall i :: 0 <= i < |items| ==> (Canon(item, items[i]) == items[i] <==> Exact(item, items[i]))
    ensures CanonItems(item, items, |items|) == items <==> forall i :: 0 <= i < |items| ==> Exact(item, items[i])
  {
    var canon := CanonItems(item, items, |items|);
    CanonItemsAt(item, items, |items|);
    if canon == items {
      forall i | 0 <= i < |items| ensures Exact(item, items[i]) {
        assert canon[i] == items[i];
      }
    }
  }

  predicate ExactMember(name: Option<string>, handler: Schema, field: Value) {
    if name.None? then field == Nothing else Exact(handler, field)
  }

  lemma {:induction false} MembersAreIdentity(names: seq<Option<string>>, handlers: seq<Schema>, fields: seq<Value>)
    requires |fields| <= |names| && |fields| <= |handlers|
    requires forall i :: 0 <= i < |fields| && names[i].Some? ==>
      (Canon(handlers[i], fields[i]) == fields[i] <==> Exact(handlers[i], fields[i]))
    ensures CanonMembers(names, handlers, fields, |fields|) == fields <==>
            forall i :: 0 <= i < |fields| ==> ExactMember(names[i], handlers[i], fields[i])
  {
    var canon := CanonMembers(names, handlers, fields, |fields|);
    CanonMembersAt(names, handlers, fields, |fields|);
    if canon == fields {
      forall i | 0 <= i < |fields| ensures ExactMember(names[i], handlers[i], fields[i]) {
        assert canon[i] == fields[i];
      }
    } else if forall i :: 0 <= i < |fields| ==> ExactMember(names[i], handlers[i], fields[i]) {
      forall i | 0 <= i < |fields| ensures canon[i] == fields[i] {
        assert ExactMember(names[i], handlers[i], fields[i]);
      }
    }
  }

  lemma {:induction false} ArrayIdentity(item: Schema, items: seq<Value>)
    requires EncodeItems(item, items, |items|).Some?
    ensures CanonItems(item, items, |items|) == items <==> forall i :: 0 <= i < |items| ==> Exact(item, items[i])
    decreases item, 1
  {
    EncodableItems(item, items, |items|);
    forall i | 0 <= i < |items| ensures Canon(item, items[i]) == items[i] <==> Exact(item, items[i]) {
      CanonIsIdentity(item, items[i]);
    }
    ItemsAreIdentity(item, items);
  }

  lemma {:induction false} StructIdentity(names: seq<Option<string>>, handlers: seq<Schema>, fields: seq<Value>)
    requires |fields| <= |names| && |fields| <= |handlers| && EncodeMembers(names, handlers, fields, |fields|).Some?
    ensures CanonMembers(names, handlers, fields, |fields|) == fields <==>
            forall i :: 0 <= i < |fields| ==> ExactMember(names[i], handlers[i], fields[i])
    decreases handlers, 1
  {
    EncodableMembers(names, handlers, fields, |fields|);
    forall i | 0 <= i < |fields| && names[i].Some?
      ensures Canon(handlers[i], fields[i]) == fields[i] <==> Exact(handlers[i], fields[i])
    {
      CanonIsIdentity(handlers[i], fields[i]);
    }
    MembersAreIdentity(names, handlers, fields);
  }

  lemma {:induction false} HyperIdentity(n: int)
    ensures Canon(Hyper, Number(n)) == Number(n) <==> -TWO_63 <= n < TWO_63
  {
  }

  /** A value comes back unchanged exactly when it is exact. */
  lemma {:induction false} CanonIsIdentity(s: Schema, v: Value)
    requires Encode(s, v).Some?
    ensures Canon(s, v) == v <==> Exact(s, v)
    decreases s, 0
  {
    match s
    case Hyper => HyperIdentity(v.n);
    case Array(item) => ArrayIdentity(item, v.items);
    case Optional(item) =>
      if !v.Nothing? {
        CanonIsIdentity(item, v);
      }
    case Struct(names, handlers) =>
      StructIdentity(names, handlers, v.fields);
      assert Exact(s, v) <==> forall i :: 0 <= i < |v.fields| ==> ExactMember(names[i], handlers[i], v.fields[i]);
    case _ =>
  }

  // ---------------------------------------------------------------- the Packer and the Unpacker

  class Packer {
    var buf: Bytes

    constructor ()
      ensures buf == []
    {
      buf := [];
    }

    /** handler.pack(): append the encoding, or raise. */
    method Pack(s: Schema, v: Value) returns (ok: bool)
      modifies this
      ensures ok <==> Encode(s, v).Some?
      ensures ok ==> buf == old(buf) + Encode(s, v).value
      decreases s, 0
    {
      match s
      case Array(item) =>
        if !v.Items? || |v.items| >= TWO_32 {
          return false;
        }
        buf := buf + Be32(|v.items|);
        ok := PackItems(item, v.items);
        assert ok ==> buf == old(buf) + (Be32(|v.items|) + EncodeItems(item, v.items, |v.items|).value);
      case Optional(item) =>
        if v.Nothing? {
          buf := buf + Be32(0);
          return true;
        }
        buf := buf + Be32(1);
        ok := Pack(item, v);
        assert ok ==> buf == old(buf) + (Be32(1) + Encode(item, v).value);
      case Constant(item, value) =>
        ok := Pack(item, value);
      case Struct(names, handlers) =>
        if !v.Fields? || |v.fields| != s.Arity() {
          return false;
        }
        ok := PackMembers(names, handlers, v.fields);
      case _ =>
        ok := PackPrimitive(s, v);
    }

    method PackPrimitive(s: Schema, v: Value) returns (ok: bool)
      modifies this
      ensures ok <==> EncodePrimitive(s, v).Some?
      ensures ok ==> buf == old(buf) + EncodePrimitive(s, v).value
    {
      var b := EncodePrimitive(s, v);
      if b.None? {
        return false;
      }
      buf := buf + b.value;
      return true;
    }

    method PackItems(item: Schema, items: seq<Value>) returns (ok: bool)
      modifies this
      ensures ok <==> EncodeItems(item, items, |items|).Some?
      ensures ok ==> buf == old(buf) + EncodeItems(item, items, |items|).value
      decreases item, 1
    {
      for n := 0 to |items|
        invariant EncodeItems(item, items, n).Some? && buf == old(buf) + EncodeItems(item, items, n).value
      {
        ok := Pack(item, items[n]);
        if !ok {
          ItemsPrefix(item, items, n + 1, |items|);
          return false;
        }
      }
      return true;
    }

    /** encode_xdr() */
    method PackMembers(names: seq<Option<string>>, handlers: seq<Schema>, fields: seq<Value>) returns (ok: bool)
      requires |fields| == Struct(names, handlers).Arity()
      modifies this
      ensures ok <==> EncodeMembers(names, handlers, fields, |fields|).Some?
      ensures ok ==> buf == old(buf) + EncodeMembers(names, handlers, fields, |fields|).value
      decreases handlers, 1
    {
      for n := 0 to |fields|
        invariant EncodeMembers(names, handlers, fields, n).Some?
        invariant buf == old(buf) + EncodeMembers(names, handlers, fields, n).value
      {
        ok := Pack(handlers[n], FieldValue(names[n], fields[n]));
        if !ok {
          MembersPrefix(names, handlers, fields, n + 1, |fields|);
          return false;
        }
      }
      return true;
    }
  }

  lemma {:induction false} ItemsPrefix(item: Schema, items: seq<Value>, n: nat, m: nat)
    requires n <= m <= |items| && EncodeItems(item, items, n).None?
    ensures EncodeItems(item, items, m).None?
    decreases m
  {
    if n < m {
      ItemsPrefix(item, items, n, m - 1);
    }
  }

  lemma {:induction false} MembersPrefix(names: seq<Option<string>>, handlers: seq<Schema>, fields: seq<Value>, n: nat, m: nat)
    requires n <= m <= |fields| && m <= |names| && m <= |handlers| && EncodeMembers(names, handlers, fields, n).None?
    ensures EncodeMembers(names, handlers, fields, m).None?
    decreases m
  {
    if n < m {
      MembersPrefix(names, handlers, fields, n, m - 1);
    }
  }

  class Unpacker {
    const data: Bytes
    var pos: nat

    ghost predicate Valid()
      reads this
    {
      pos <= |data|
    }

    function Rest(): Bytes
      requires Valid()
      reads this
    {
      data[pos..]
    }

    constructor (data: Bytes)
      ensures Valid() && Rest() == data && this.data == data && pos == 0
    {
      this.data, pos := data, 0;
    }

    method Advance(n: nat)
      requires Valid() && n <= |Rest()|
      modifies this
      ensures Valid() && Rest() == old(Rest())[n..]
    {
      pos := pos + n;
    }

    method UnpackUint() returns (r: Result<int, DecodeError>)
      requires Valid()
      modifies this
      ensures Valid()
      ensures match TakeUint(old(Rest()))
              case Ok((n, rest)) => r == Ok(n) && Rest() == rest
              case Err(e) => r == Err(e)
    {
      if |Rest()| < 4 {
        return Err(EndOfData);
      }
      var n := FromBe32(Rest()[..4]);
      Advance(4);
      return Ok(n);
    }

    /** handler.unpack(): read one value from the cursor on, or raise. */
    method Unpack(s: Schema) returns (r: Result<Value, DecodeError>)
      requires Valid()
      modifies this
      ensures Valid()
      ensures match Decode(s, old(Rest()))
              case Ok((v, rest)) => r == Ok(v) && Rest() == rest
              case Err(e) => r == Err(e)
      decreases s, 0
    {
      match s
      case Array(item) =>
        var n := UnpackUint();
        if n.Err? {
          return Err(n.error);
        }
        r := UnpackItems(item, n.value);
      case Optional(item) =>
        var flag := UnpackUint();
        if flag.Err? {
          return Err(flag.error);
        }
        if flag.value == 0 {
          return Ok(Nothing);
        }
        r := Unpack(item);
      case Constant(item, value) =>
        r := Unpack(item);
        if r.Ok? {
          return Ok(value);
        }
      case Struct(names, handlers) =>
        r := UnpackMembers(names, handlers);
      case _ =>
        match DecodePrimitive(s, Rest())
        case Err(e) => return Err(e);
        case Ok((v, rest)) =>
          PrimitiveConsumes(s, Rest());
          Advance(|Rest()| - |rest|);
          return Ok(v);
    }

    method UnpackItems(item: Schema, n: nat) returns (r: Result<Value, DecodeError>)
      requires Valid()
      modifies this
      ensures Valid()
      ensures match DecodeItems(item, n, old(Rest()))
              case Ok((items, rest)) => r == Ok(Items(items)) && Rest() == rest
              case Err(e) => r == Err(e)
      decreases item, 1
    {
      var items := [];
      for m := 0 to n
        invariant Valid() && DecodeItems(item, m, old(Rest())) == Ok((items, Rest()))
      {
        r := Unpack(item);
        if r.Err? {
          DecodeItemsStops(item, m + 1, n, old(Rest()));
          return;
        }
        items := items + [r.value];
      }
      return Ok(Items(items));
    }

    /** decode_xdr() */
    method UnpackMembers(names: seq<Option<string>>, handlers: seq<Schema>) returns (r: Result<Value, DecodeError>)
      requires Valid()
      modifies this
      ensures Valid()
      ensures match DecodeMembers(names, handlers, Struct(names, handlers).Arity(), old(Rest()))
              case Ok((fields, rest)) => r == Ok(Fields(fields)) && Rest() == rest
              case Err(e) => r == Err(e)
      decreases handlers, 1
    {
      var fields := [];
      var arity := Struct(names, handlers).Arity();
      for m := 0 to arity
        invariant Valid() && DecodeMembers(names, handlers, m, old(Rest())) == Ok((fields, Rest()))
      {
        r := Unpack(handlers[m]);
        if r.Err? {
          DecodeMembersStops(names, handlers, m + 1, arity, old(Rest()));
          return;
        }
        fields := fields + [FieldValue(names[m], r.value)];
      }
      return Ok(Fields(fields));
    }
  }

  lemma {:induction false} PrimitiveConsumes(s: Schema, b: Bytes)
    requires DecodePrimitive(s, b).Ok?
    ensures var rest := DecodePrimitive(s, b).value.1;
            |rest| <= |b| && rest == b[|b| - |rest|..]
  {
  }

  lemma {:induction false} DecodeItemsStops(item: Schema, m: nat, n: nat, b: Bytes)
    requires m <= n && DecodeItems(item, m, b).Err?
    ensures DecodeItems(item, n, b) == DecodeItems(item, m, b)
    decreases n
  {
    if m < n {
      DecodeItemsStops(item, m, n - 1, b);
    }
  }

  lemma {:induction false} DecodeMembersStops(names: seq<Option<string>>, handlers: seq<Schema>, m: nat, n: nat, b: Bytes)
    requires m <= n && n <= |names| && n <= |handlers| && DecodeMembers(names, handlers, m, b).Err?
    ensures DecodeMembers(names, handlers, n, b) == DecodeMembers(names, handlers, m, b)
    decreases n
  {
    if m < n {
      DecodeMembersStops(names, handlers, m, n - 1, b);
    }
  }

  /** XDRStruct.encode() */
  method EncodeStruct(s: Schema, v: Value) returns (b: Option<Bytes>)
    ensures b == Encode(s, v)
  {
    var xdr := new Packer();
    var ok := xdr.Pack(s, v);
    assert ok ==> [] + Encode(s, v).value == Encode(s, v).value;
    b := if ok then Some(xdr.buf) else None;
  }

  /** XDRStruct.decode() */
  method DecodeStruct(s: Schema, data: Bytes) returns (r: Result<Value, DecodeError>)
    ensures r == DecodeAll(s, data)
  {
    var xdr := new Unpacker(data);
    r := xdr.Unpack(s);
    if r.Ok? && xdr.pos < |xdr.data| {
      return Err(Malformed);
    }
  }
}
