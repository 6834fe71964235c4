/** The base64 and hexadecimal codings around a scope cookie (scope.py:90-94, 198-215). */
module Base64 {
  import opened Wrappers

  type Sextet = x: int | 0 <= x < 64

  /** The alphabet of table 1, section 4 of RFC 4648. */
  function Letter(v: Sextet): char {
    if v < 26 then 'A' + (v as char)
    else if v < 52 then 'a' + ((v - 26) as char)
    else if v < 62 then '0' + ((v - 52) as char)
    else if v == 62 then '+' else '/'
  }

  function Value(c: char): Option<Sextet> {
    if 'A' <= c <= 'Z' then Some(c as int - 'A' as int)
    else if 'a' <= c <= 'z' then Some(c as int - 'a' as int + 26)
    else if '0' <= c <= '9' then Some(c as int - '0' as int + 52)
    else if c == '+' then Some(62)
    else if c == '/' then Some(63)
    else None
  }

  lemma {:induction false} ValueOfLetter(v: Sextet)
    ensures Value(Letter(v)) == Some(v) && Letter(v) !in {'=', '\n', '-'}
  {
    assert Letter(v) as int == if v < 26 then 65 + v else if v < 52 then 71 + v
                               else if v < 62 then v - 4 else if v == 62 then 43 else 47;
  }

  function Encode(b: Bytes): string {
    if b == [] then ""
    else if |b| == 1 then [Letter(b[0] / 4), Letter(b[0] % 4 * 16), '=', '=']
    else if |b| == 2 then
      [Letter(b[0] / 4), Letter(b[0] % 4 * 16 + b[1] / 16), Letter(b[1] % 16 * 4), '=']
    else
      [Letter(b[0] / 4), Letter(b[0] % 4 * 16 + b[1] / 16),
       Letter(b[1] % 16 * 4 + b[2] / 64), Letter(b[2] % 64)] + Encode(b[3..])
  }

  /** What `left` may hold after `quad` letters of a group. */
  predicate Leftover(quad: nat, left: nat) {
    quad < 4 && left < (if quad == 0 then 1 else if quad == 1 then 64 else if quad == 2 then 16 else 4)
  }

  /** The decoder: `quad` letters of the group read, `left` the bits not yet given out, `pads`
      padding characters seen.  Characters outside the alphabet are skipped, the padding that
      completes a group ends the input, and an incomplete group is an error. */
  function Scan(s: string, quad: nat, left: nat, pads: nat): Option<Bytes>
    requires Leftover(quad, left)
    decreases |s|
  {
    if s == "" then if quad == 0 then Some([]) else None
    else if s[0] == '=' then
      if quad >= 2 && quad + pads + 1 >= 4 then Some([])
      else Scan(s[1..], quad, left, if quad >= 2 then pads + 1 else pads)
    else
      match Value(s[0])
      case None => Scan(s[1..], quad, left, pads)
      case Some(v) =>
        if quad == 0 then Scan(s[1..], 1, v, 0)
        else if quad == 1 then Prepend(left * 4 + v / 16, Scan(s[1..], 2, v % 16, 0))
        else if quad == 2 then Prepend(left * 16 + v / 4, Scan(s[1..], 3, v % 4, 0))
        else Prepend(left * 64 + v, Scan(s[1..], 0, 0, 0))
  }

  function Prepend(x: Byte, rest: Option<Bytes>): Option<Bytes> {
    match rest
    case None => None
    case Some(b) => Some([x] + b)
  }

  function Decode(s: string): Option<Bytes> {
    Scan(s, 0, 0, 0)
  }

  /** Bits dealt out over two letters are collected again. */
  lemma {:induction false} BitsCollected(x: Byte, y: Byte, z: Byte)
    ensures x / 4 * 4 + (x % 4 * 16 + y / 16) / 16 == x && (x % 4 * 16 + y / 16) % 16 == y / 16
    ensures y / 16 * 16 + (y % 16 * 4 + z / 64) / 4 == y && (y % 16 * 4 + z / 64) % 4 == z / 64
    ensures z / 64 * 64 + z % 64 == z
    ensures x / 4 * 4 + x % 4 * 16 / 16 == x && y / 16 * 16 + y % 16 * 4 / 4 == y
  {
  }

  lemma {:induction false} ScanLetter(v: Sextet, rest: string, quad: nat, left: nat, pads: nat)
    requires Leftover(quad, left)
    ensures Scan([Letter(v)] + rest, quad, left, pads) ==
            if quad == 0 then Scan(rest, 1, v, 0)
            else if quad == 1 then Prepend(left * 4 + v / 16, Scan(rest, 2, v % 16, 0))
            else if quad == 2 then Prepend(left * 16 + v / 4, Scan(rest, 3, v % 4, 0))
            else Prepend(left * 64 + v, Scan(rest, 0, 0, 0))
  {
    ValueOfLetter(v);
    assert ([Letter(v)] + rest)[1..] == rest;
  }

  /** Two letters give one byte and leave the high bits of the next. */
  lemma {:induction false} ScanTwo(x: Byte, y: Byte, z: Byte, rest: string)
    ensures Scan([Letter(x / 4)] + ([Letter(x % 4 * 16 + y / 16)] + rest), 0, 0, 0)
         == Prepend(x, Scan(rest, 2, y / 16, 0))
  {
    BitsCollected(x, y, z);
    ScanLetter(x / 4, [Letter(x % 4 * 16 + y / 16)] + rest, 0, 0, 0);
    ScanLetter(x % 4 * 16 + y / 16, rest, 1, x / 4, 0);
  }

  lemma {:induction false} ScanThird(x: Byte, y: Byte, z: Byte, rest: string)
    ensures Scan([Letter(y % 16 * 4 + z / 64)] + rest, 2, y / 16, 0) == Prepend(y, Scan(rest, 3, z / 64, 0))
  {
    BitsCollected(x, y, z);
    ScanLetter(y % 16 * 4 + z / 64, rest, 2, y / 16, 0);
  }

  lemma {:induction false} ScanFourth(x: Byte, y: Byte, z: Byte, rest: string)
    ensures Scan([Letter(z % 64)] + rest, 3, z / 64, 0) == Prepend(z, Scan(rest, 0, 0, 0))
  {
    BitsCollected(x, y, z);
    ScanLetter(z % 64, rest, 3, z / 64, 0);
  }

  lemma {:induction false} PaddingEnds(left: nat)
    requires left < 4
    ensures Scan(['='], 3, left, 0) == Some([]) && Scan(['=', '='], 2, left, 0) == Some([])
  {
    assert ['=', '='][1..] == ['='];
  }

  /** One byte: two letters and two padding characters. */
  lemma {:induction false} OneByte(x: Byte)
    ensures Decode(Encode([x])) == Some([x])
  {
    ScanTwo(x, 0, 0, ['=', '=']);
    assert Encode([x]) == [Letter(x / 4)] + ([Letter(x % 4 * 16 + 0 / 16)] + ['=', '=']);
    PaddingEnds(0);
    assert [x] + [] == [x];
  }

  lemma {:induction false} TwoBytes(x: Byte, y: Byte)
    ensures Decode(Encode([x, y])) == Some([x, y])
  {
    var third := [Letter(y % 16 * 4 + 0 / 64)] + ['='];
    ScanTwo(x, y, 0, third);
    assert Encode([x, y]) == [Letter(x / 4)] + ([Letter(x % 4 * 16 + y / 16)] + third);
    ScanThird(x, y, 0, ['=']);
    PaddingEnds(0);
    assert [x] + ([y] + []) == [x, y];
  }

  lemma {:induction false} WholeGroup(x: Byte, y: Byte, z: Byte, rest: string)
    ensures Scan([Letter(x / 4), Letter(x % 4 * 16 + y / 16), Letter(y % 16 * 4 + z / 64), Letter(z % 64)] + rest, 0, 0, 0)
         == Prepend(x, Prepend(y, Prepend(z, Scan(rest, 0, 0, 0))))
  {
    var fourth := [Letter(z % 64)] + rest;
    var third := [Letter(y % 16 * 4 + z / 64)] + fourth;
    ScanTwo(x, y, z, third);
    ScanThird(x, y, z, fourth);
    ScanFourth(x, y, z, rest);
    assert [Letter(x / 4), Letter(x % 4 * 16 + y / 16), Letter(y % 16 * 4 + z / 64), Letter(z % 64)] + rest
        == [Letter(x / 4)] + ([Letter(x % 4 * 16 + y / 16)] + third);
  }

  /** Decoding undoes encoding, for every byte string (section 4 of RFC 4648). */
  lemma {:induction false} RoundTrip(b: Bytes)
    ensures Decode(Encode(b)) == Some(b)
  {
    if |b| == 1 {
      OneByte(b[0]);
      assert b == [b[0]];
    } else if |b| == 2 {
      TwoBytes(b[0], b[1]);
      assert b == [b[0], b[1]];
    } else if |b| > 2 {
      WholeGroup(b[0], b[1], b[2], Encode(b[3..]));
      RoundTrip(b[3..]);
      assert b == [b[0]] + ([b[1]] + ([b[2]] + b[3..]));
    }
  }

  /** Three vectors of section 10 of RFC 4648: "fo", "foo" and "fooba". */
  lemma {:induction false} RfcVectors()
    ensures Encode([102, 111]) == "Zm8="
    ensures Encode([102, 111, 111]) == "Zm9v"
    ensures Encode([102, 111, 111, 98, 97]) == "Zm9vYmE="
  {
    assert [102, 111, 111, 98, 97][3..] == [98, 97];
  }

  // ---------------------------------------------------------------- line wrapping

  /** textwrap.fill() on a text without spaces. */
  function Wrap(s: string, width: nat): string
    requires width > 0
  {
    if |s| <= width then s else s[..width] + "\n" + Wrap(s[width..], width)
  }

  function Unwrapped(s: string): string {
    if s == "" then ""
    else if s[0] == '\n' then Unwrapped(s[1..])
    else [s[0]] + Unwrapped(s[1..])
  }

  /** The decoder does not see newlines. */
  lemma {:induction false} NewlinesAreSkipped(s: string, quad: nat, left: nat, pads: nat)
    requires Leftover(quad, left)
    ensures Scan(s, quad, left, pads) == Scan(Unwrapped(s), quad, left, pads)
    decreases |s|
  {
    if s != "" {
      var u := Unwrapped(s[1..]);
      if s[0] == '\n' {
        NewlinesAreSkipped(s[1..], quad, left, pads);
      } else {
        assert ([s[0]] + u)[1..] == u;
        if s[0] == '=' {
          NewlinesAreSkipped(s[1..], quad, left, if quad >= 2 then pads + 1 else pads);
        } else {
          match Value(s[0]) {
            case None => NewlinesAreSkipped(s[1..], quad, left, pads);
            case Some(v) =>
              var next := (quad + 1) % 4;
              var kept := if quad == 0 then v else if quad == 1 then v % 16 else if quad == 2 then v % 4 else 0;
              NewlinesAreSkipped(s[1..], next, kept, 0);
          }
        }
      }
    }
  }

  lemma {:induction false} UnwrappedConcat(a: string, b: string)
    ensures Unwrapped(a + b) == Unwrapped(a) + Unwrapped(b)
  {
    if a == "" {
      assert a + b == b;
    } else {
      assert (a + b)[1..] == a[1..] + b;
      UnwrappedConcat(a[1..], b);
    }
  }

  lemma {:induction false} UnwrappedSame(s: string)
    requires '\n' !in s
    ensures Unwrapped(s) == s
  {
    if s != "" {
      UnwrappedSame(s[1..]);
      assert [s[0]] + s[1..] == s;
    }
  }

  lemma {:induction false} UnwrapLine(line: string, rest: string)
    requires '\n' !in line
    ensures Unwrapped(line + "\n" + rest) == line + Unwrapped(rest)
  {
    UnwrappedConcat(line + "\n", rest);
    UnwrappedConcat(line, "\n");
    UnwrappedSame(line);
  }

  lemma {:induction false} UnwrapWrap(s: string, width: nat)
    requires width > 0 && '\n' !in s
    ensures Unwrapped(Wrap(s, width)) == s
  {
    if |s| <= width {
      UnwrappedSame(s);
    } else {
      var rest := Wrap(s[width..], width);
      UnwrapWrap(s[width..], width);
      UnwrapLine(s[..width], rest);
      assert s[..width] + s[width..] == s;
    }
  }

  /** What re matches as [A-Za-z0-9+/=\n]. */
  predicate InClass(c: char) {
    Value(c).Some? || c == '=' || c == '\n'
  }

  lemma {:induction false} EncodedInClass(b: Bytes)
    ensures forall c :: c in Encode(b) ==> InClass(c) && c != '\n'
  {
    if |b| <= 2 {
      forall v: Sextet ensures InClass(Letter(v)) && Letter(v) != '\n' { ValueOfLetter(v); }
    } else {
      forall v: Sextet ensures InClass(Letter(v)) && Letter(v) != '\n' { ValueOfLetter(v); }
      EncodedInClass(b[3..]);
    }
  }

  lemma {:induction false} WrappedInClass(s: string, width: nat)
    requires width > 0 && forall c :: c in s ==> InClass(c)
    ensures forall c :: c in Wrap(s, width) ==> InClass(c)
    ensures s != "" ==> Wrap(s, width) != ""
  {
    if |s| > width {
      WrappedInClass(s[width..], width);
    }
  }

  /** Decoding undoes encoding and wrapping, with a newline after the last line. */
  lemma {:induction false} WrappedRoundTrip(b: Bytes, width: nat)
    requires width > 0
    ensures Decode(Wrap(Encode(b), width) + "\n") == Some(b)
  {
    var w := Wrap(Encode(b), width);
    EncodedInClass(b);
    UnwrapWrap(Encode(b), width);
    UnwrappedConcat(w, "\n");
    assert Unwrapped(w + "\n") == Encode(b);
    NewlinesAreSkipped(w + "\n", 0, 0, 0);
    RoundTrip(b);
  }

  lemma {:induction false} LineRoundTrip(b: Bytes)
    ensures Decode(Encode(b) + "\n") == Some(b)
  {
    EncodedInClass(b);
    UnwrapLine(Encode(b), "");
    assert Encode(b) + "\n" + "" == Encode(b) + "\n";
    assert Unwrapped(Encode(b) + "\n") == Encode(b);
    NewlinesAreSkipped(Encode(b) + "\n", 0, 0, 0);
    RoundTrip(b);
  }

  /** No line of a wrapped text is longer than the width: every stretch of width + 1 characters
      holds a newline. */
  lemma {:induction false} LinesAreShort(s: string, width: nat, i: nat)
    requires width > 0 && i + width < |Wrap(s, width)|
    ensures exists j :: i <= j <= i + width && Wrap(s, width)[j] == '\n'
  {
    if |s| > width {
      var rest := Wrap(s[width..], width);
      if i <= width {
        assert Wrap(s, width)[width] == '\n';
      } else {
        LinesAreShort(s[width..], width, i - width - 1);
        var j :| i - width - 1 <= j <= i - 1 && rest[j] == '\n';
        assert Wrap(s, width)[j + width + 1] == '\n';
      }
    }
  }

  // ---------------------------------------------------------------- hexadecimal

  type Nibble = x: int | 0 <= x < 16

  function Digit(v: Nibble): char {
    if v < 10 then '0' + (v as char) else 'a' + ((v - 10) as char)
  }

  function DigitValue(c: char): Option<Nibble> {
    if '0' <= c <= '9' then Some(c as int - '0' as int)
    else if 'a' <= c <= 'f' then Some(c as int - 'a' as int + 10)
    else if 'A' <= c <= 'F' then Some(c as int - 'A' as int + 10)
    else None
  }

  function Hexlify(b: Bytes): string {
    if b == [] then "" else [Digit(b[0] / 16), Digit(b[0] % 16)] + Hexlify(b[1..])
  }

  function Unhexlify(s: string): Option<Bytes> {
    if s == "" then Some([])
    else if |s| == 1 then None
    else
      match (DigitValue(s[0]), DigitValue(s[1]))
      case (Some(high), Some(low)) => Prepend(16 * high as int + low, Unhexlify(s[2..]))
      case _ => None
  }

  lemma {:induction false} DigitRoundTrip(v: Nibble)
    ensures DigitValue(Digit(v)) == Some(v) && Digit(v) != '\n'
  {
    assert Digit(v) as int == if v < 10 then 48 + v else 87 + v;
  }

  lemma {:induction false} HexRoundTrip(b: Bytes)
    ensures Unhexlify(Hexlify(b)) == Some(b) && '\n' !in Hexlify(b)
  {
    if b != [] {
      HexRoundTrip(b[1..]);
      DigitRoundTrip(b[0] / 16);
      DigitRoundTrip(b[0] % 16);
      assert Hexlify(b)[2..] == Hexlify(b[1..]);
      assert [b[0]] + b[1..] == b;
    }
  }

  /** Only an odd length or a character that is no digit makes unhexlify fail. */
  lemma {:induction false} HexRejectsExactly(s: string)
    ensures Unhexlify(s).None? <==> |s| % 2 == 1 || exists c :: c in s && DigitValue(c).None?
  {
    if |s| == 1 {
    } else if s != "" {
      HexRejectsExactly(s[2..]);
      assert s == [s[0], s[1]] + s[2..];
    }
  }
}
