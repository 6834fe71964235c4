/** The framing between the server and a filter: decimal lengths, payloads, and blank lines. */
module FilterPipe {
  import opened Wrappers
  import opened Sequences

  const NEWLINE: Byte := 10

  // ---------------------------------------------------------------- decimal lengths

  predicate IsDigit(b: Byte) { 48 <= b <= 57 }

  function Decimal(n: nat): (d: Bytes)
    ensures d != [] && forall i :: 0 <= i < |d| ==> IsDigit(d[i])
  {
    if n < 10 then [48 + n] else Decimal(n / 10) + [48 + n % 10]
  }

  function ParseDecimal(d: Bytes): Option<nat> {
    if d == [] || !IsDigit(d[|d| - 1]) then None
    else if |d| == 1 then Some(d[0] - 48)
    else
      match ParseDecimal(d[..|d| - 1])
      case None => None
      case Some(n) => Some(10 * n + (d[|d| - 1] - 48))
  }

  lemma {:induction false} DecimalInverse(n: nat)
    ensures ParseDecimal(Decimal(n)) == Some(n)
  {
    if n >= 10 {
      DecimalInverse(n / 10);
      var d := Decimal(n);
      assert d[..|d| - 1] == Decimal(n / 10);
    }
  }

  /** The number that decimal digits stand for. */
  function DecimalValue(d: Bytes): int {
    if d == [] then 0 else 10 * DecimalValue(d[..|d| - 1]) + (d[|d| - 1] as int - '0' as int)
  }

  /** The digits of a length stand for it, without a leading zero. */
  lemma {:induction false} DecimalExactly(n: nat)
    ensures DecimalValue(Decimal(n)) == n && (n > 0 ==> Decimal(n)[0] != '0' as int)
  {
    var d := Decimal(n);
    if n < 10 {
      assert d[..0] == [];
    } else {
      DecimalExactly(n / 10);
      assert d[..|d| - 1] == Decimal(n / 10);
    }
  }

  /** int() on the texts that are digits only; what else it takes is not modelled. */
  lemma {:induction false} ParsedExactly(d: Bytes)
    ensures ParseDecimal(d).Some? <==> d != [] && forall i :: 0 <= i < |d| ==> '0' as int <= d[i] <= '9' as int
    ensures ParseDecimal(d).Some? ==> ParseDecimal(d).value == DecimalValue(d)
  {
    if d != [] {
      var n := |d| - 1;
      ParsedExactly(d[..n]);
      assert forall i :: 0 <= i < n ==> d[..n][i] == d[i];
    }
  }

  // ---------------------------------------------------------------- lines

  predicate IsSpace(b: Byte) { 9 <= b <= 13 || b == 32 }

  function Strip(b: Bytes): Bytes {
    Stripped(b, IsSpace)
  }

  /** Neither end is a space, and there is no newline inside. */
  predicate Plain(b: Bytes) {
    b != [] && !IsSpace(b[0]) && !IsSpace(b[|b| - 1]) && NEWLINE !in b
  }

  /** readline(): through the first newline, or to the end of the stream. */
  function ReadLine(s: Bytes): (r: (Bytes, Bytes))
    ensures s == r.0 + r.1
    ensures s != [] ==> r.0 != []
  {
    if s == [] then ([], [])
    else if s[0] == NEWLINE then (s[..1], s[1..])
    else
      var (line, rest) := ReadLine(s[1..]);
      assert s == [s[0]] + s[1..];
      ([s[0]] + line, rest)
  }

  lemma {:induction false} LineEnds(line: Bytes, rest: Bytes)
    requires NEWLINE !in line
    ensures ReadLine(line + [NEWLINE] + rest) == (line + [NEWLINE], rest)
  {
    var s := line + [NEWLINE] + rest;
    if line == [] {
      assert s[..1] == [NEWLINE] && s[1..] == rest;
    } else {
      LineEnds(line[1..], rest);
      assert s[1..] == line[1..] + [NEWLINE] + rest;
      assert line + [NEWLINE] == [line[0]] + (line[1..] + [NEWLINE]);
    }
  }

  lemma {:induction false} StripPlain(b: Bytes)
    requires Plain(b)
    ensures Strip(b + [NEWLINE]) == b
  {
    assert (b + [NEWLINE])[0] == b[0];
    assert (b + [NEWLINE])[..|b|] == b;
    assert StripRight(b + [NEWLINE], IsSpace) == StripRight(b, IsSpace);
  }

  // ---------------------------------------------------------------- reading

  datatype Read<T> = Got(value: T, rest: Bytes) | Failed   // end of file, short read, or not a length

  /** get_item(): None for a blank line. */
  function GetItem(s: Bytes): (r: Read<Option<Bytes>>)
    ensures r.Got? ==> |r.rest| < |s|
  {
    var (line, rest) := ReadLine(s);
    if line == [] then Failed
    else if Strip(line) == [] then Got(None, rest)
    else
      match ParseDecimal(Strip(line))
      case None => Failed
      case Some(size) =>
        if |rest| < size then Failed
        else if |rest| == size then Got(Some(rest), [])
        else Got(Some(rest[..size]), rest[size + 1..])
  }

  /** get_array(): items up to a blank line. */
  function GetArray(s: Bytes): Read<seq<Bytes>>
    decreases |s|
  {
    match GetItem(s)
    case Failed => Failed
    case Got(None, rest) => Got([], rest)
    case Got(Some(item), rest) =>
      match GetArray(rest)
      case Failed => Failed
      case Got(items, rest') => Got([item] + items, rest')
  }

  // ---------------------------------------------------------------- writing

  /** What either end can write: a scalar, None, or a list. */
  datatype Token = Scalar(bytes: Bytes) | Blank | List(items: seq<Bytes>)

  function Framed(value: Bytes): Bytes {
    Decimal(|value|) + [NEWLINE] + value + [NEWLINE]
  }

  function FramedAll(items: seq<Bytes>): Bytes {
    if items == [] then [] else Framed(items[0]) + FramedAll(items[1..])
  }

  function Written(t: Token): Bytes {
    match t
    case Scalar(bytes) => Framed(bytes)
    case Blank => [NEWLINE]
    case List(items) => FramedAll(items) + [NEWLINE]
  }

  function WrittenAll(ts: seq<Token>): Bytes {
    if ts == [] then [] else Written(ts[0]) + WrittenAll(ts[1..])
  }

  /** The reader knows from the command whether a list or an item comes next. */
  function ReadToken(isList: bool, s: Bytes): Read<Token> {
    if isList then
      match GetArray(s)
      case Failed => Failed
      case Got(items, rest) => Got(List(items), rest)
    else
      match GetItem(s)
      case Failed => Failed
      case Got(None, rest) => Got(Blank, rest)
      case Got(Some(item), rest) => Got(Scalar(item), rest)
  }

  function ReadTokens(kinds: seq<bool>, s: Bytes): Read<seq<Token>> {
    if kinds == [] then Got([], s)
    else
      match ReadToken(kinds[0], s)
      case Failed => Failed
      case Got(t, rest) =>
        match ReadTokens(kinds[1..], rest)
        case Failed => Failed
        case Got(ts, rest') => Got([t] + ts, rest')
  }

  function Kinds(ts: seq<Token>): seq<bool> {
    seq(|ts|, i requires 0 <= i < |ts| => ts[i].List?)
  }

  // ---------------------------------------------------------------- round trip

  lemma {:induction false} ItemInverse(value: Bytes, rest: Bytes)
    ensures GetItem(Framed(value) + rest) == Got(Some(value), rest)
  {
    var size := Decimal(|value|);
    var tail := value + [NEWLINE] + rest;
    assert Framed(value) + rest == size + [NEWLINE] + tail;
    LineEnds(size, tail);
    StripPlain(size);
    DecimalInverse(|value|);
    assert tail[..|value|] == value && tail[|value| + 1..] == rest;
  }

  lemma {:induction false} BlankInverse(rest: Bytes)
    ensures GetItem([NEWLINE] + rest) == Got(None, rest)
  {
    assert [] + [NEWLINE] + rest == [NEWLINE] + rest;
    LineEnds([], rest);
    assert StripLeft([NEWLINE], IsSpace) == [];
  }

  lemma {:induction false} ArrayInverse(items: seq<Bytes>, rest: Bytes)
    ensures GetArray(FramedAll(items) + [NEWLINE] + rest) == Got(items, rest)
  {
    if items == [] {
      assert FramedAll(items) + [NEWLINE] + rest == [NEWLINE] + rest;
      BlankInverse(rest);
    } else {
      var tail := FramedAll(items[1..]) + [NEWLINE] + rest;
      assert FramedAll(items) + [NEWLINE] + rest == Framed(items[0]) + tail;
      ItemInverse(items[0], tail);
      ArrayInverse(items[1..], rest);
      assert [items[0]] + items[1..] == items;
    }
  }

  lemma {:induction false} TokenInverse(t: Token, rest: Bytes)
    ensures ReadToken(t.List?, Written(t) + rest) == Got(t, rest)
  {
    match t
    case Scalar(bytes) => ItemInverse(bytes, rest);
    case Blank => BlankInverse(rest);
    case List(items) => ArrayInverse(items, rest);
  }

  /** Whatever one end writes, the other reads back as the same sequence, and no more: payloads
      may hold newlines or be empty, and lists may be empty. */
  lemma {:induction false} FramingRoundTrip(ts: seq<Token>, rest: Bytes)
    ensures ReadTokens(Kinds(ts), WrittenAll(ts) + rest) == Got(ts, rest)
  {
    if ts == [] {
      assert WrittenAll(ts) + rest == rest;
    } else {
      var tail := WrittenAll(ts[1..]) + rest;
      assert WrittenAll(ts) + rest == Written(ts[0]) + tail;
      TokenInverse(ts[0], tail);
      FramingRoundTrip(ts[1..], rest);
      assert Kinds(ts)[1..] == Kinds(ts[1..]);
      assert [ts[0]] + ts[1..] == ts;
    }
  }

  lemma {:induction false} TagLine(tag: Bytes, body: Bytes, rest: Bytes)
    requires Plain(tag)
    ensures var (line, after) := ReadLine(tag + [NEWLINE] + body + rest); Strip(line) == tag && after == body + rest
  {
    assert tag + [NEWLINE] + body + rest == tag + [NEWLINE] + (body + rest);
    LineEnds(tag, body + rest);
    StripPlain(tag);
  }

  /** A filter's message: a tag line and its values. */
  lemma {:induction false} MessageRoundTrip(tag: Bytes, ts: seq<Token>, rest: Bytes)
    requires Plain(tag)
    ensures var (line, body) := ReadLine(tag + [NEWLINE] + WrittenAll(ts) + rest);
            Strip(line) == tag && ReadTokens(Kinds(ts), body) == Got(ts, rest)
  {
    FramingRoundTrip(ts, rest);
    TagLine(tag, WrittenAll(ts), rest);
  }

  // ---------------------------------------------------------------- what goes over the pipe

  function Code(c: char): Byte { c as int % 256 }

  function Ascii(s: string): Bytes {
    seq(|s|, i requires 0 <= i < |s| => Code(s[i]))
  }

  /** A length, a newline, the payload and a newline; a blank line for None and at the end of a list. */
  lemma {:induction false} FramingVectors()
    ensures Written(Scalar(Ascii("true"))) == Ascii("4\ntrue\n")
    ensures Written(Scalar([])) == Ascii("0\n\n") && Written(Blank) == Ascii("\n") && Written(List([])) == Ascii("\n")
  {
    assert Decimal(4) == [52] && Decimal(0) == [48];
    assert Written(Scalar(Ascii("true"))) == [52] + [10] + Ascii("true") + [10];
  }

  lemma {:induction false} ListVector()
    ensures Written(List([Ascii("hello,"), Ascii("x")])) == Ascii("6\nhello,\n1\nx\n\n")
  {
    var items := [Ascii("hello,"), Ascii("x")];
    assert Decimal(6) == [54] && Decimal(1) == [49];
    assert items[1..] == [Ascii("x")] && [Ascii("x")][1..] == [];
    assert FramedAll([]) == [];
    assert FramedAll([Ascii("x")]) == [49] + [10] + Ascii("x") + [10] + [];
    assert FramedAll(items) == ([54] + [10] + Ascii("hello,") + [10]) + ([49] + [10] + Ascii("x") + [10] + []);
  }

  // ---------------------------------------------------------------- items that are cut short

  lemma {:induction false} DigitsArePlain(d: Bytes)
    requires forall i :: 0 <= i < |d| ==> IsDigit(d[i])
    ensures NEWLINE !in d && (d != [] ==> Plain(d) && Strip(d) == d)
  {
  }

  /** The digits at the start of a length that is not zero do not stand for zero. */
  lemma {:induction false} CutDigits(n: nat, k: nat)
    requires n > 0 && 0 < k <= |Decimal(n)|
    ensures ParseDecimal(Decimal(n)[..k]).Some? && ParseDecimal(Decimal(n)[..k]).value > 0
  {
    var d := Decimal(n);
    if k == |d| {
      assert d[..k] == d;
      DecimalInverse(n);
    } else {
      assert d[..k] == Decimal(n / 10)[..k];
      CutDigits(n / 10, k);
    }
  }

  /** Cut within the length. */
  lemma {:induction false} CutInLength(value: Bytes, k: nat)
    requires value != [] && k <= |Decimal(|value|)|
    ensures GetItem(Framed(value)[..k]) == Failed
  {
    var d := Decimal(|value|);
    var s := Framed(value)[..k];
    assert s == d[..k];
    DigitsArePlain(s);
    LastLine(s);
    if k > 0 {
      CutDigits(|value|, k);
    }
  }

  /** Cut after it. */
  lemma {:induction false} CutInPayload(value: Bytes, k: nat)
    requires |Decimal(|value|)| < k < |Framed(value)|
    ensures GetItem(Framed(value)[..k]) == if k < |Framed(value)| - 1 then Failed else Got(Some(value), [])
  {
    var d := Decimal(|value|);
    var rest := value[..k - |d| - 1];
    assert Framed(value)[..k] == d + [NEWLINE] + rest && value[..|value|] == value;
    LineEnds(d, rest);
    StripPlain(d);
    DecimalInverse(|value|);
  }

  /** An item that is cut short is never taken for another one: reading fails, unless only the newline
      at the end, or the payload of an empty item, is missing. */
  lemma {:induction false} CutShort(value: Bytes, k: nat)
    requires k < |Framed(value)|
    ensures GetItem(Framed(value)[..k])
            == if k == 0 || (value != [] && k < |Framed(value)| - 1) then Failed else Got(Some(value), [])
  {
    if k > |Decimal(|value|)| {
      CutInPayload(value, k);
    } else if value != [] {
      CutInLength(value, k);
    } else if k == 1 {
      assert Decimal(0) == [48] && Framed([])[..1] == [48];
      DigitsArePlain([48]);
      LastLine([48]);
      assert ParseDecimal([48]) == Some(0);
    }
  }

  // ---------------------------------------------------------------- the two ends

  /** Either end of the pipe: what can still be read and what has been written. */
  class PipeEnd {
    var fin: Bytes
    var fout: Bytes

    constructor (fin: Bytes)
      ensures this.fin == fin && fout == []
    {
      this.fin, fout := fin, [];
    }

    method Line() returns (line: Bytes)
      modifies this`fin
      ensures (line, fin) == ReadLine(old(fin))
    {
      var i := 0;
      while i < |fin| && fin[i] != NEWLINE
        invariant i <= |fin| && NEWLINE !in fin[..i]
      {
        i := i + 1;
      }
      if i < |fin| {
        line := fin[..i + 1];
        LineEnds(fin[..i], fin[i + 1..]);
        assert fin == fin[..i] + [NEWLINE] + fin[i + 1..] && line == fin[..i] + [NEWLINE];
        fin := fin[i + 1..];
      } else {
        line := fin;
        assert fin[..i] == fin;
        LastLine(fin);
        fin := [];
      }
    }

    method GetTag() returns (tag: Bytes)
      modifies this`fin
      ensures tag == Strip(ReadLine(old(fin)).0) && fin == ReadLine(old(fin)).1
    {
      var line := Line();
      tag := Strip(line);
    }

    method ReadItem() returns (ok: bool, item: Option<Bytes>)
      modifies this`fin
      ensures match GetItem(old(fin))
              case Got(value, rest) => ok && item == value && fin == rest
              case Failed => !ok
    {
      var sizebuf := Line();
      if sizebuf == [] {
        return false, None;
      }
      if Strip(sizebuf) == [] {
        return true, None;
      }
      var size := ParseDecimal(Strip(sizebuf));
      if size.None? || |fin| < size.value {
        return false, None;
      }
      assert |fin| == size.value ==> fin[..size.value] == fin;
      item := Some(fin[..size.value]);
      fin := fin[size.value..];
      fin := fin[if fin == [] then 0 else 1..];  // swallow the trailing newline
      return true, item;
    }

    method ReadArray() returns (ok: bool, arr: seq<Bytes>)
      modifies this`fin
      ensures match GetArray(old(fin))
              case Got(items, rest) => ok && arr == items && fin == rest
              case Failed => !ok
    {
      arr := [];
      assert forall items: seq<Bytes> :: [] + items == items;
      while true
        invariant match GetArray(fin)
                  case Failed => GetArray(old(fin)).Failed?
                  case Got(items, rest) => GetArray(old(fin)) == Got(arr + items, rest)
        decreases |fin|
      {
        var item;
        ok, item := ReadItem();
        if !ok {
          return;
        }
        if item.None? {
          assert arr + [] == arr;
          return;
        }
        assert forall items :: arr + ([item.value] + items) == (arr + [item.value]) + items;
        arr := arr + [item.value];
      }
    }

    method SendValue(value: Bytes)
      modifies this`fout
      ensures fout == old(fout) + Framed(value)
    {
      fout := fout + Decimal(|value|) + [NEWLINE];
      fout := fout + value;
      fout := fout + [NEWLINE];
    }

    method SendToken(value: Token)
      modifies this`fout
      ensures fout == old(fout) + Written(value)
    {
      match value
      case Scalar(bytes) => SendValue(bytes);
      case Blank => fout := fout + [NEWLINE];
      case List(items) =>
        SendItems(items);
        fout := fout + [NEWLINE];
    }

    /** send(), and the values of send_message() */
    method Send(values: seq<Token>)
      modifies this`fout
      ensures fout == old(fout) + WrittenAll(values)
    {
      for n := 0 to |values|
        invariant fout + WrittenAll(values[n..]) == old(fout) + WrittenAll(values)
      {
        ghost var was, rest := fout, WrittenAll(values[n + 1..]);
        SendToken(values[n]);
        assert values[n..][0] == values[n] && values[n..][1..] == values[n + 1..];
        Joined(was, Written(values[n]), rest);
      }
      assert values[|values|..] == [];
    }

    method SendItems(items: seq<Bytes>)
      modifies this`fout
      ensures fout == old(fout) + FramedAll(items)
    {
      for n := 0 to |items|
        invariant fout + FramedAll(items[n..]) == old(fout) + FramedAll(items)
      {
        SendValue(items[n]);
        assert items[n..][0] == items[n] && items[n..][1..] == items[n + 1..];
      }
      assert items[|items|..] == [];
    }

    method SendMessage(tag: Bytes, values: seq<Token>)
      modifies this`fout
      ensures fout == old(fout) + (tag + [NEWLINE] + WrittenAll(values))
    {
      fout := fout + tag + [NEWLINE];
      Send(values);
    }
  }

  lemma {:induction false} Joined(a: Bytes, b: Bytes, c: Bytes)
    ensures a + b + c == a + (b + c)
  {
  }

  lemma {:induction false} LastLine(s: Bytes)
    requires NEWLINE !in s
    ensures ReadLine(s) == (s, [])
  {
    if s != [] {
      LastLine(s[1..]);
      assert s == [s[0]] + s[1..];
    }
  }
}
