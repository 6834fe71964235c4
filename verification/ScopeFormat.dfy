/** What a scope cookie looks like, letter by letter, and what parse() makes of any text. */
module ScopeFormat {
  import opened Wrappers
  import opened Texts
  import opened Scope
  import Base64

  // ---------------------------------------------------------------- the text of a cookie

  function Line(name: string, value: string): string {
    name + ": " + value + "\n"
  }

  lemma {:induction false} BufferCons(h: (string, string), rest: seq<(string, string)>)
    ensures HeaderBuffer([h] + rest) == Line(h.0, h.1) + HeaderBuffer(rest)
  {
    assert ([h] + rest)[1..] == rest;
  }

  lemma {:induction false} HeaderText(a: (string, string), b: (string, string), c: (string, string), d: (string, string), more: seq<(string, string)>)
    ensures HeaderBuffer([a, b, c, d] + more) == Line(a.0, a.1) + (Line(b.0, b.1) + (Line(c.0, c.1) + (Line(d.0, d.1) + HeaderBuffer(more))))
  {
    BufferCons(d, more);
    BufferCons(c, [d] + more);
    BufferCons(b, [c] + ([d] + more));
    BufferCons(a, [b] + ([c] + ([d] + more)));
    assert [a, b, c, d] + more == [a] + ([b] + ([c] + ([d] + more)));
  }

  /** The signed data: headers in this order, a blank line, and one scope URL a line. */
  lemma {:induction false} DataText(serial: string, expires: Moment, servers: seq<string>, blaster: Option<string>, urls: seq<string>)
    ensures var more := if blaster.Some? then Line("Blaster", blaster.value) else "";
            CookieData(serial, expires, servers, blaster, urls)
            == Line("Version", "1") + (Line("Serial", serial) + (Line("Expires", expires.text) + (Line("Servers", Join(";", servers)) + more)))
               + "\n" + Join("\n", urls) + "\n"
  {
    var more := if blaster.Some? then [("Blaster", blaster.value)] else [];
    HeaderText(("Version", "1"), ("Serial", serial), ("Expires", expires.text), ("Servers", Join(";", servers)), more);
    assert HeaderBuffer([]) == "";
    if blaster.Some? {
      BufferCons(("Blaster", blaster.value), []);
      assert [("Blaster", blaster.value)] + [] == more;
      assert Line("Blaster", blaster.value) + "" == Line("Blaster", blaster.value);
    }
  }

  lemma {:induction false} JoinVector()
    ensures Join(";", ["a", "b", "c"]) == "a;b;c" && Join(";", ["a"]) == "a" && Join(";", []) == ""
  {
    assert ["a", "b", "c"][1..] == ["b", "c"] && ["b", "c"][1..] == ["c"];
  }

  /** The signature in lower-case hexadecimal, the data, all of it in base64 on lines of 64, between
      the boundary lines. */
  lemma {:induction false} EncodedText(lib: Library, c: Cookie)
    ensures var text := Base64.Hexlify(c.signature) + "\n" + c.data;
            var letters := Base64.Encode(lib.encode(text));
            && |Encoded(lib, c)| > 40
            && Encoded(lib, c)[..40] == "-----BEGIN OPENDIAMOND SCOPECOOKIE-----\n"
            && (|letters| <= 64 ==> Encoded(lib, c)[40..] == letters + "\n" + "-----END OPENDIAMOND SCOPECOOKIE-----\n")
            && (|letters| > 64 ==>
                  |Encoded(lib, c)| > 105 && Encoded(lib, c)[40..104] == letters[..64] && Encoded(lib, c)[104] == '\n')
  {
    var letters := Base64.Encode(lib.encode(Decoded(c)));
    var all := BOUNDARY_START + (Inner(lib, c) + BOUNDARY_END);
    assert Encoded(lib, c) == all && |BOUNDARY_START| == 40;
    assert all[..40] == BOUNDARY_START && all[40..] == Inner(lib, c) + BOUNDARY_END;
    if |letters| > 64 {
      assert Inner(lib, c)[..64] == letters[..64] && Inner(lib, c)[64] == '\n';
      assert all[40..104] == Inner(lib, c)[..64];
    }
  }

  lemma {:induction false} HexOne(x: Byte, rest: Bytes)
    ensures Base64.Hexlify([x] + rest) == [Base64.Digit(x / 16), Base64.Digit(x % 16)] + Base64.Hexlify(rest)
  {
    assert ([x] + rest)[1..] == rest;
  }

  lemma {:induction false} HexDigits()
    ensures forall v: Base64.Nibble :: Base64.Digit(v) == "0123456789abcdef"[v]
  {
  }

  /** Digits are lower-case where they are written, and either where they are read; the high one comes first. */
  lemma {:induction false} HexVectors()
    ensures Base64.Hexlify([1, 35, 255]) == "0123ff"
    ensures Base64.Unhexlify("aF") == Some([175]) && Base64.Unhexlify("09") == Some([9])
  {
    HexDigits();
    HexOne(255, []);
    HexOne(35, [255]);
    HexOne(1, [35] + [255]);
    assert [1] + ([35] + [255]) == [1, 35, 255] && [255] + [] == [255];
    assert Base64.Hexlify([]) == "";
    assert ['0', '1'] + (['2', '3'] + (['f', 'f'] + "")) == "0123ff";
    assert "aF"[2..] == "" && "09"[2..] == "" && [175] + [] == [175] && [9] + [] == [9];
  }

  /** Letters of all parts of the alphabet of RFC 4648. */
  lemma {:induction false} UpperCaseVector()
    ensures Base64.Encode([0, 16, 131]) == "ABCD"
  {
  }

  lemma {:induction false} LowerCaseVector()
    ensures Base64.Encode([105, 183, 29]) == "abcd"
  {
  }

  lemma {:induction false} DigitVector()
    ensures Base64.Encode([211, 93, 183]) == "0123"
  {
  }

  lemma {:induction false} LastLettersVector()
    ensures Base64.Encode([251, 255, 191]) == "+/+/"
  {
  }

  // ---------------------------------------------------------------- what parse() reads

  /** The name of a header line, and its value. */
  function NameOf(line: string): Option<string> {
    match SplitOnce(line, ':')
    case None => None
    case Some((k, _)) => Some(k)
  }

  function ValueOf(line: string): string {
    match SplitOnce(line, ':')
    case None => ""
    case Some((_, v)) => Strip(v)
  }

  /** The value on the last line of that name. */
  function LastValue(lines: seq<string>, name: string): Option<string> {
    if lines == [] then None
    else
      var last := lines[|lines| - 1];
      if NameOf(last) == Some(name) then Some(ValueOf(last)) else LastValue(lines[..|lines| - 1], name)
  }

  lemma {:induction false} LastValueIsLast(lines: seq<string>, name: string)
    ensures match LastValue(lines, name)
            case None => forall i :: 0 <= i < |lines| ==> NameOf(lines[i]) != Some(name)
            case Some(v) =>
              exists i :: 0 <= i < |lines| && NameOf(lines[i]) == Some(name) && ValueOf(lines[i]) == v
                && forall j :: i < j < |lines| ==> NameOf(lines[j]) != Some(name)
  {
    if lines != [] {
      var n := |lines| - 1;
      LastValueIsLast(lines[..n], name);
      if NameOf(lines[n]) == Some(name) {
        assert ValueOf(lines[n]) == LastValue(lines, name).value;
      } else if LastValue(lines, name).Some? {
        var i :| 0 <= i < n && NameOf(lines[..n][i]) == Some(name) && ValueOf(lines[..n][i]) == LastValue(lines, name).value
          && forall j :: i < j < n ==> NameOf(lines[..n][j]) != Some(name);
        assert NameOf(lines[i]) == Some(name) && ValueOf(lines[i]) == LastValue(lines, name).value;
        forall j | i < j < |lines| ensures NameOf(lines[j]) != Some(name) {
          assert j < n ==> lines[..n][j] == lines[j];
        }
      }
    }
  }

  /** A line that parse() lets pass: version 1, a UUID, a date, or anything else with a colon. */
  predicate Passable(lib: Library, line: string) {
    match NameOf(line)
    case None => false
    case Some(name) =>
      && (name == "Version" ==> lib.number(ValueOf(line)) == Some(1))
      && (name == "Serial" ==> lib.uuid(ValueOf(line)).Some?)
      && (name == "Expires" ==> lib.date(ValueOf(line)).Some?)
  }

  function Uuid(lib: Library, v: Option<string>): Option<string> {
    match v case None => None case Some(x) => lib.uuid(x)
  }

  function Date(lib: Library, v: Option<string>): Option<Moment> {
    match v case None => None case Some(x) => lib.date(x)
  }

  /** Separated by semicolons or commas, trimmed, empty ones left out. */
  function ServersIn(v: Option<string>): Option<seq<string>> {
    match v case None => None case Some(x) => Some(Cleaned(Split(x, {';', ','})))
  }

  function FieldsOf(lib: Library, lines: seq<string>): Fields {
    Fields(Uuid(lib, LastValue(lines, "Serial")), Date(lib, LastValue(lines, "Expires")),
           ServersIn(LastValue(lines, "Servers")), LastValue(lines, "Blaster"))
  }

  lemma {:induction false} ReadLinesSnoc(lib: Library, lines: seq<string>, f: Fields)
    requires lines != []
    ensures var n := |lines| - 1;
            ReadLines(lib, lines, f) ==
              match ReadLines(lib, lines[..n], f)
              case Err(e) => Err(e)
              case Ok(g) => ReadLine(lib, lines[n], g)
    decreases |lines|
  {
    var n := |lines| - 1;
    if n == 0 {
      assert lines[1..] == [] && lines[..0] == [];
    } else {
      assert lines[..n][1..] == lines[1..][..n - 1] && lines[1..][n - 1] == lines[n];
      var read := ReadLine(lib, lines[0], f);
      if read.Ok? {
        ReadLinesSnoc(lib, lines[1..], read.value);
      }
    }
  }

  lemma {:induction false} OneLineRead(lib: Library, line: string, lines: seq<string>)
    ensures var f := FieldsOf(lib, lines);
            && (ReadLine(lib, line, f).Ok? <==> Passable(lib, line))
            && (Passable(lib, line) ==> ReadLine(lib, line, f).value == FieldsOf(lib, lines + [line]))
  {
    var all := lines + [line];
    assert all[..|lines|] == lines && all[|lines|] == line;
  }

  /** The header is read if every line of it passes, and then every field has what the last line of
      its name says; other lines are ignored. */
  lemma {:induction false} HeaderExactly(lib: Library, lines: seq<string>)
    ensures ReadLines(lib, lines, NO_FIELDS).Ok? <==> forall line :: line in lines ==> Passable(lib, line)
    ensures ReadLines(lib, lines, NO_FIELDS).Ok? ==> ReadLines(lib, lines, NO_FIELDS).value == FieldsOf(lib, lines)
    decreases |lines|
  {
    if lines != [] {
      var n := |lines| - 1;
      ReadLinesSnoc(lib, lines, NO_FIELDS);
      HeaderExactly(lib, lines[..n]);
      assert lines == lines[..n] + [lines[n]];
      assert forall line :: line in lines <==> line in lines[..n] || line == lines[n];
      OneLineRead(lib, lines[n], lines[..n]);
    }
  }

  /** The text has this signature line, header and body. */
  predicate Parts(text: string, signature: string, header: string, body: string) {
    && SplitOnce(text, '\n').Some? && SplitOnce(text, '\n').value.0 == signature
    && SplitBlank(SplitOnce(text, '\n').value.1) == Some((header, body))
  }

  lemma {:induction false} SplitBlankShape(s: string)
    requires SplitBlank(s).Some?
    ensures var (a, b) := SplitBlank(s).value;
            s == a + "\n\n" + b && forall i :: 0 <= i < |a| ==> !(s[i] == '\n' && s[i + 1] == '\n')
  {
    if !(s[0] == '\n' && s[1] == '\n') {
      SplitBlankShape(s[1..]);
      var (a, b) := SplitBlank(s[1..]).value;
      assert s == [s[0]] + s[1..];
      forall i | 0 <= i < |a| + 1 ensures !(s[i] == '\n' && s[i + 1] == '\n') {
        if i > 0 {
          assert s[i] == s[1..][i - 1] && s[i + 1] == s[1..][i];
        }
      }
    }
  }

  /** The signature ends at the first newline, the header at the first blank line. */
  lemma {:induction false} PartsShape(text: string, signature: string, header: string, body: string)
    requires Parts(text, signature, header, body)
    ensures text == signature + "\n" + (header + "\n\n" + body) && '\n' !in signature
    ensures forall i :: 0 <= i < |header| ==> !((header + "\n\n")[i] == '\n' && (header + "\n\n")[i + 1] == '\n')
  {
    var data := SplitOnce(text, '\n').value.1;
    SplitOnceShape(text, '\n');
    SplitBlankShape(data);
    assert ['\n'] == "\n";
    forall i | 0 <= i < |header| ensures !((header + "\n\n")[i] == '\n' && (header + "\n\n")[i + 1] == '\n') {
      assert data[i] == (header + "\n\n")[i] && data[i + 1] == (header + "\n\n")[i + 1];
    }
  }

  /** A text is accepted as this cookie if and only if it has three parts, the signature is hexadecimal,
      every header line passes, and the header names a serial number, an expiry time with a time zone
      and servers; the cookie has what the last line of each name says, and the trimmed lines of the
      body that are not empty as its URLs. */
  lemma {:induction false} AcceptedExactly(lib: Library, text: string, c: Cookie)
    ensures ParsedText(lib, text) == Ok(c) <==>
            exists signature, header, body ::
              && Parts(text, signature, header, body)
              && var lines := SplitLines("", header);
                 var serial, expires := Uuid(lib, LastValue(lines, "Serial")), Date(lib, LastValue(lines, "Expires"));
                 var servers := ServersIn(LastValue(lines, "Servers"));
              && (forall line :: line in lines ==> Passable(lib, line))
              && serial == Some(c.serial) && expires == Some(c.expires) && c.expires.aware && servers == Some(c.servers)
              && c.blaster == LastValue(lines, "Blaster") && c.urls == Cleaned(Split(body, {'\n'}))
              && Base64.Unhexlify(signature) == Some(c.signature) && c.data == header + "\n\n" + body
  {
    if SplitOnce(text, '\n').Some? {
      var (signature, data) := SplitOnce(text, '\n').value;
      if SplitBlank(data).Some? {
        var (header, body) := SplitBlank(data).value;
        assert Parts(text, signature, header, body);
        SplitBlankShape(data);
        HeaderExactly(lib, SplitLines("", header));
      }
    }
  }
}
