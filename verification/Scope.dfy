/** Scope cookies: printing, parsing and splitting (opendiamond/scope.py). */
module Scope {
  import opened Wrappers
  import opened Texts
  import Base64

  const BOUNDARY_START := "-----BEGIN OPENDIAMOND SCOPECOOKIE-----\n"
  const BOUNDARY_END := "-----END OPENDIAMOND SCOPECOOKIE-----\n"
  const COOKIE_VERSION := 1
  const SERVER_SEPARATORS := {';', ','}

  /** A datetime: its ISO 8601 text, and whether it carries a time zone. */
  datatype Moment = Moment(text: string, aware: bool)

  datatype Cookie = Cookie(
    serial: string, expires: Moment, blaster: Option<string>,
    servers: seq<string>, urls: seq<string>, data: string, signature: Bytes)

  /** ScopeError, or the ValueError that parse() lets through. */
  datatype Failure = ScopeError(message: string) | ValueError

  /** The parts of Python's library that parse() calls and this model does not define.
      None stands for a ValueError. */
  datatype Library = Library(
    encode: string -> Bytes, decode: Bytes -> Option<string>,
    number: string -> Option<int>, uuid: string -> Option<string>, date: string -> Option<Moment>)

  /** UTF-8 decodes what it encoded, and int() reads the one version number there is. */
  ghost predicate Sane(lib: Library) {
    && (forall s :: lib.decode(lib.encode(s)) == Some(s))
    && lib.number("1") == Some(COOKIE_VERSION)
  }

  // ---------------------------------------------------------------- generating

  function HeaderBuffer(headers: seq<(string, string)>): string {
    if headers == [] then ""
    else headers[0].0 + ": " + headers[0].1 + "\n" + HeaderBuffer(headers[1..])
  }

  function Headers(serial: string, expires: Moment, servers: seq<string>, blaster: Option<string>): seq<(string, string)> {
    [("Version", "1"), ("Serial", serial), ("Expires", expires.text), ("Servers", Join(";", servers))]
    + match blaster
      case None => []
      case Some(b) => [("Blaster", b)]
  }

  function CookieData(serial: string, expires: Moment, servers: seq<string>, blaster: Option<string>,
                      urls: seq<string>): string {
    HeaderBuffer(Headers(serial, expires, servers, blaster)) + "\n" + Join("\n", urls) + "\n"
  }

  /** The class constructor. */
  function NewCookie(serial: string, expires: Moment, blaster: Option<string>, servers: seq<string>,
                     urls: seq<string>, data: string, signature: Bytes): Result<Cookie, Failure> {
    if !expires.aware then Err(ScopeError("Expiration time does not include time zone"))
    else Ok(Cookie(serial, expires, blaster, servers, urls, data, signature))
  }

  function Generate(serial: string, expires: Moment, servers: seq<string>, urls: seq<string>,
                    blaster: Option<string>, sign: string -> Bytes): Result<Cookie, Failure> {
    var data := CookieData(serial, expires, servers, blaster, urls);
    NewCookie(serial, expires, blaster, servers, urls, data, sign(data))
  }

  /** ScopeCookie.__str__ */
  function Decoded(c: Cookie): string {
    Base64.Hexlify(c.signature) + "\n" + c.data
  }

  function Inner(lib: Library, c: Cookie): string {
    Base64.Wrap(Base64.Encode(lib.encode(Decoded(c))), 64) + "\n"
  }

  function Encoded(lib: Library, c: Cookie): string {
    BOUNDARY_START + Inner(lib, c) + BOUNDARY_END
  }

  // ---------------------------------------------------------------- the boundary pattern

  /** How many characters of the base64 class s starts with. */
  function RunLength(s: string): (n: nat)
    ensures n <= |s|
  {
    if s == "" || !Base64.InClass(s[0]) then 0 else 1 + RunLength(s[1..])
  }

  /** The length of the base64 run of a cookie at the start of s. */
  function MatchCookie(s: string): (r: Option<nat>)
    ensures r.Some? ==> |BOUNDARY_START| + r.value + |BOUNDARY_END| <= |s|
  {
    if !(BOUNDARY_START <= s) then None
    else
      var rest := s[|BOUNDARY_START|..];
      var n := RunLength(rest);
      if n > 0 && BOUNDARY_END <= rest[n..] then Some(n) else None
  }

  /** A way for the regular expression to match at the start of s. */
  predicate Matches(s: string, n: nat) {
    && BOUNDARY_START <= s && 0 < n <= |s| - |BOUNDARY_START|
    && (forall i :: 0 <= i < n ==> Base64.InClass(s[|BOUNDARY_START|..][i]))
    && BOUNDARY_END <= s[|BOUNDARY_START| + n..]
  }

  lemma {:induction false} RunLengthIs(s: string, n: nat)
    requires n <= |s| && forall i :: 0 <= i < n ==> Base64.InClass(s[i])
    requires n < |s| ==> !Base64.InClass(s[n])
    ensures RunLength(s) == n
  {
    if n > 0 {
      RunLengthIs(s[1..], n - 1);
    }
  }

  lemma {:induction false} RunLengthInClass(s: string)
    ensures forall i :: 0 <= i < RunLength(s) ==> Base64.InClass(s[i])
  {
    if s != "" && Base64.InClass(s[0]) {
      RunLengthInClass(s[1..]);
      assert forall i :: 1 <= i < RunLength(s) ==> s[i] == s[1..][i - 1];
    }
  }

  /** Taking the longest run finds the regular expression's match whenever there is one, and
      there is only one: no backtracking is needed. */
  lemma {:induction false} MatchIsUnique(s: string, n: nat)
    ensures Matches(s, n) <==> MatchCookie(s) == Some(n)
  {
    if BOUNDARY_START <= s {
      var rest := s[|BOUNDARY_START|..];
      if Matches(s, n) {
        assert rest[n..] == s[|BOUNDARY_START| + n..];
        assert rest[n] == BOUNDARY_END[0];
        RunLengthIs(rest, n);
      }
      if MatchCookie(s) == Some(n) {
        RunLengthInClass(rest);
        assert rest[n..] == s[|BOUNDARY_START| + n..];
      }
    }
  }

  /** ScopeCookie.split(): re.findall scans for matches that do not overlap. */
  function FindAll(s: string): seq<string>
    decreases |s|
  {
    if s == "" then []
    else
      match MatchCookie(s)
      case None => FindAll(s[1..])
      case Some(n) =>
        var length := |BOUNDARY_START| + n + |BOUNDARY_END|;
        [s[..length]] + FindAll(s[length..])
  }

  // ---------------------------------------------------------------- parsing

  /** The local variables of parse(); None when the variable is not assigned yet. */
  datatype Fields = Fields(
    serial: Option<string>, expires: Option<Moment>, servers: Option<seq<string>>, blaster: Option<string>)

  const NO_FIELDS := Fields(None, None, None, None)

  function SplitServers(v: string): seq<string> {
    Cleaned(Split(v, SERVER_SEPARATORS))
  }

  function ReadHeader(lib: Library, k: string, v: string, f: Fields): Result<Fields, Failure> {
    if k == "Version" then
      match lib.number(v)
      case None => Err(ScopeError("Invalid cookie version string"))
      case Some(n) => if n != COOKIE_VERSION then Err(ScopeError("Unknown cookie version")) else Ok(f)
    else if k == "Serial" then
      match lib.uuid(v)
      case None => Err(ScopeError("Invalid serial format"))
      case Some(u) => Ok(f.(serial := Some(u)))
    else if k == "Expires" then
      match lib.date(v)
      case None => Err(ScopeError("Invalid date format"))
      case Some(d) => Ok(f.(expires := Some(d)))
    else if k == "Servers" then Ok(f.(servers := Some(SplitServers(v))))
    else if k == "Blaster" then Ok(f.(blaster := Some(v)))
    else Ok(f)
  }

  function ReadLine(lib: Library, line: string, f: Fields): Result<Fields, Failure> {
    match SplitOnce(line, ':')
    case None => Err(ValueError)
    case Some((k, v)) => ReadHeader(lib, k, Strip(v), f)
  }

  function ReadLines(lib: Library, lines: seq<string>, f: Fields): Result<Fields, Failure>
    decreases |lines|
  {
    if lines == [] then Ok(f)
    else
      match ReadLine(lib, lines[0], f)
      case Err(e) => Err(e)
      case Ok(g) => ReadLines(lib, lines[1..], g)
  }

  function Finish(f: Fields, body: string, data: string, signature: Bytes): Result<Cookie, Failure> {
    if f.serial.None? || f.expires.None? || f.servers.None? then Err(ScopeError("Missing cookie header"))
    else
      NewCookie(f.serial.value, f.expires.value, f.blaster, f.servers.value,
                Cleaned(Split(body, {'\n'})), data, signature)
  }

  /** What follows the base64 layer. */
  function ParsedText(lib: Library, text: string): Result<Cookie, Failure> {
    match SplitOnce(text, '\n')
    case None => Err(ScopeError("Malformed cookie"))
    case Some((signature, data)) =>
      match SplitBlank(data)
      case None => Err(ScopeError("Malformed cookie"))
      case Some((header, body)) =>
        match Base64.Unhexlify(signature)
        case None => Err(ValueError)
        case Some(sig) =>
          match ReadLines(lib, SplitLines("", header), NO_FIELDS)
          case Err(e) => Err(e)
          case Ok(f) => Finish(f, body, data, sig)
  }

  function Parsed(lib: Library, data: string): Result<Cookie, Failure> {
    match MatchCookie(data)
    case None => Err(ScopeError("Invalid boundary markers"))
    case Some(n) =>
      match Base64.Decode(data[|BOUNDARY_START|..][..n])
      case None => Err(ValueError)
      case Some(bytes) =>
        match lib.decode(bytes)
        case None => Err(ValueError)
        case Some(text) => ParsedText(lib, text)
  }

  /** ScopeCookie.parse(): the same, assigning variables line by line. */
  method Parse(lib: Library, data: string) returns (r: Result<Cookie, Failure>)
    ensures r == Parsed(lib, data)
  {
    var m := MatchCookie(data);
    if m.None? { return Err(ScopeError("Invalid boundary markers")); }
    var bytes := Base64.Decode(data[|BOUNDARY_START|..][..m.value]);
    if bytes.None? { return Err(ValueError); }
    var text := lib.decode(bytes.value);
    if text.None? { return Err(ValueError); }
    var outer := SplitOnce(text.value, '\n');
    if outer.None? { return Err(ScopeError("Malformed cookie")); }
    var inner := SplitBlank(outer.value.1);
    if inner.None? { return Err(ScopeError("Malformed cookie")); }
    var signature := Base64.Unhexlify(outer.value.0);
    if signature.None? { return Err(ValueError); }

    var lines := SplitLines("", inner.value.0);
    var fields := NO_FIELDS;
    for i := 0 to |lines|
      invariant ReadLines(lib, lines, NO_FIELDS) == ReadLines(lib, lines[i..], fields)
    {
      var read := ReadLine(lib, lines[i], fields);
      if read.Err? { return Err(read.error); }
      fields := read.value;
    }
    return Finish(fields, inner.value.1, outer.value.1, signature.value);
  }

  // ---------------------------------------------------------------- the round trip

  /** What a caller can check about the items before generating a cookie from them. */
  predicate GoodServer(s: string) {
    s != "" && Trimmed(s) && OneLine(s) && Without(s, SERVER_SEPARATORS)
  }

  predicate GoodUrl(u: string) {
    u != "" && Trimmed(u) && '\n' !in u
  }

  predicate GoodBlaster(b: string) {
    Trimmed(b) && OneLine(b)
  }

  predicate GoodItems(servers: seq<string>, urls: seq<string>, blaster: Option<string>) {
    && (forall s :: s in servers ==> GoodServer(s))
    && (forall u :: u in urls ==> GoodUrl(u))
    && (blaster.Some? ==> GoodBlaster(blaster.value))
  }

  /** The serial number and the expiry time are read back from their own texts. */
  predicate Readable(lib: Library, serial: string, expires: Moment) {
    && Trimmed(serial) && OneLine(serial) && lib.uuid(serial) == Some(serial)
    && expires.aware && Trimmed(expires.text) && OneLine(expires.text) && lib.date(expires.text) == Some(expires)
  }

  function HeaderLine(h: (string, string)): string {
    h.0 + ": " + h.1
  }

  function HeaderLines(headers: seq<(string, string)>): seq<string> {
    if headers == [] then [] else [HeaderLine(headers[0])] + HeaderLines(headers[1..])
  }

  lemma {:induction false} HeaderBufferIsLines(headers: seq<(string, string)>)
    requires headers != []
    ensures HeaderLines(headers) != [] && HeaderBuffer(headers) == Join("\n", HeaderLines(headers)) + "\n"
  {
    var rest := headers[1..];
    if rest == [] {
      assert HeaderLines(headers) == [HeaderLine(headers[0])];
      assert HeaderBuffer(rest) == "";
    } else {
      HeaderBufferIsLines(rest);
      assert HeaderLines(headers)[1..] == HeaderLines(rest);
      assert HeaderBuffer(headers) == HeaderLine(headers[0]) + "\n" + (Join("\n", HeaderLines(rest)) + "\n");
    }
  }

  predicate GoodHeader(h: (string, string)) {
    && h.0 != "" && ':' !in h.0 && OneLine(h.0)
    && Trimmed(h.1) && OneLine(h.1)
  }

  lemma {:induction false} HeaderLinesAreLines(headers: seq<(string, string)>)
    requires forall h :: h in headers ==> GoodHeader(h)
    ensures forall x :: x in HeaderLines(headers) ==> x != "" && OneLine(x) && '\n' !in x
  {
    if headers != [] {
      assert headers[0] in headers && forall h :: h in headers[1..] ==> h in headers;
      HeaderLinesAreLines(headers[1..]);
      assert forall c :: c in HeaderLine(headers[0]) ==> c in headers[0].0 || c == ':' || c == ' ' || c in headers[0].1;
      assert IsBreak('\n');
    }
  }

  /** A printed header line is read back as its key and value. */
  lemma {:induction false} HeaderLineIsRead(lib: Library, h: (string, string), f: Fields)
    requires GoodHeader(h)
    ensures ReadLine(lib, HeaderLine(h), f) == ReadHeader(lib, h.0, h.1, f)
  {
    assert HeaderLine(h) == h.0 + [':'] + (" " + h.1);
    SplitOnceAt(h.0, ':', " " + h.1);
    StripTrimmed(h.1);
  }

  function ReadHeaders(lib: Library, headers: seq<(string, string)>, f: Fields): Result<Fields, Failure>
    decreases |headers|
  {
    if headers == [] then Ok(f)
    else
      match ReadHeader(lib, headers[0].0, headers[0].1, f)
      case Err(e) => Err(e)
      case Ok(g) => ReadHeaders(lib, headers[1..], g)
  }

  lemma {:induction false} HeaderLinesAreRead(lib: Library, headers: seq<(string, string)>, f: Fields)
    requires forall h :: h in headers ==> GoodHeader(h)
    ensures ReadLines(lib, HeaderLines(headers), f) == ReadHeaders(lib, headers, f)
    decreases |headers|
  {
    if headers != [] {
      assert headers[0] in headers && forall h :: h in headers[1..] ==> h in headers;
      HeaderLineIsRead(lib, headers[0], f);
      assert HeaderLines(headers)[1..] == HeaderLines(headers[1..]);
      match ReadHeader(lib, headers[0].0, headers[0].1, f) {
        case Err(_) =>
        case Ok(g) => HeaderLinesAreRead(lib, headers[1..], g);
      }
    }
  }

  lemma {:induction false} JoinedIsOneLine(items: seq<string>)
    requires forall x :: x in items ==> OneLine(x)
    ensures OneLine(Join(";", items))
  {
    if items != [] {
      assert items[0] in items && forall x :: x in items[1..] ==> x in items;
      JoinedIsOneLine(items[1..]);
    }
  }

  lemma {:induction false} HeadersAreGood(lib: Library, serial: string, expires: Moment, servers: seq<string>, blaster: Option<string>)
    requires Readable(lib, serial, expires) && GoodItems(servers, [], blaster)
    ensures forall h :: h in Headers(serial, expires, servers, blaster) ==> GoodHeader(h)
  {
    JoinedIsOneLine(servers);
    TrimmedJoin(servers);
    assert GoodHeader(("Version", "1")) && GoodHeader(("Serial", serial)) && GoodHeader(("Expires", expires.text));
    assert GoodHeader(("Servers", Join(";", servers)));
    assert blaster.Some? ==> GoodHeader(("Blaster", blaster.value));
  }

  lemma {:induction false} ServersAreRead(servers: seq<string>)
    requires forall s :: s in servers ==> GoodServer(s)
    ensures SplitServers(Join(";", servers)) == servers
  {
    SplitJoin(servers, ';', SERVER_SEPARATORS);
    assert SERVER_SEPARATORS == {';', ','};
    if servers == [] {
      CleanedJoined([], [""]);
      assert [] + [""] == [""];
    } else {
      CleanedJoined(servers, []);
      assert servers + [] == servers;
    }
  }

  lemma {:induction false} HeadersAreRead(lib: Library, serial: string, expires: Moment, servers: seq<string>, blaster: Option<string>)
    requires Sane(lib) && Readable(lib, serial, expires) && GoodItems(servers, [], blaster)
    ensures ReadHeaders(lib, Headers(serial, expires, servers, blaster), NO_FIELDS)
         == Ok(Fields(Some(serial), Some(expires), Some(servers), blaster))
  {
    var hs := Headers(serial, expires, servers, blaster);
    var f1 := NO_FIELDS.(serial := Some(serial));
    var f2 := f1.(expires := Some(expires));
    var f3 := f2.(servers := Some(servers));
    ServersAreRead(servers);
    assert ReadHeader(lib, hs[0].0, hs[0].1, NO_FIELDS) == Ok(NO_FIELDS);
    assert ReadHeader(lib, hs[1].0, hs[1].1, NO_FIELDS) == Ok(f1);
    assert ReadHeader(lib, hs[2].0, hs[2].1, f1) == Ok(f2);
    assert ReadHeader(lib, hs[3].0, hs[3].1, f2) == Ok(f3);
    assert hs[1..][1..] == hs[2..] && hs[2..][1..] == hs[3..] && hs[3..][1..] == hs[4..];
    assert ReadHeaders(lib, hs, NO_FIELDS) == ReadHeaders(lib, hs[2..], f1) == ReadHeaders(lib, hs[4..], f3);
    match blaster {
      case None => assert hs[4..] == [];
      case Some(b) =>
        var last := hs[4..];
        assert last == [("Blaster", b)] && last[1..] == [];
        assert ReadHeader(lib, last[0].0, last[0].1, f3) == Ok(f3.(blaster := Some(b)));
        assert ReadHeaders(lib, last, f3) == Ok(f3.(blaster := Some(b)));
    }
  }

  lemma {:induction false} UrlsAreRead(urls: seq<string>)
    requires forall u :: u in urls ==> GoodUrl(u)
    ensures Cleaned(Split(Join("\n", urls) + "\n", {'\n'})) == urls
  {
    var body := Join("\n", urls) + "\n";
    if urls == [] {
      assert body == "\n";
      assert body[1..] == "";
      CleanedJoined([], ["", ""]);
      assert [] + ["", ""] == ["", ""];
    } else {
      JoinWithLast(urls, "");
      assert Join("\n", urls + [""]) == body;
      assert "\n" == ['\n'];
      SplitJoin(urls + [""], '\n', {'\n'});
      CleanedJoined(urls, [""]);
    }
  }

  /** A newline after the last line is an empty line joined to the others. */
  lemma {:induction false} JoinWithLast(items: seq<string>, last: string)
    requires items != []
    ensures Join("\n", items + [last]) == Join("\n", items) + "\n" + last
  {
    if |items| == 1 {
      assert (items + [last])[1..] == [last];
    } else {
      assert (items + [last])[1..] == items[1..] + [last];
      JoinWithLast(items[1..], last);
    }
  }

  lemma {:induction false} DataParts(header: string, body: string)
    ensures header + "\n" + "\n" + body + "\n" == header + "\n\n" + (body + "\n")
  {
  }

  /** The signed data falls apart at its first blank line. */
  lemma {:induction false} DataFallsApart(lib: Library, serial: string, expires: Moment, servers: seq<string>,
                       blaster: Option<string>, urls: seq<string>)
    requires Readable(lib, serial, expires) && GoodItems(servers, [], blaster)
    ensures var lines := HeaderLines(Headers(serial, expires, servers, blaster));
            && SplitBlank(CookieData(serial, expires, servers, blaster, urls))
               == Some((Join("\n", lines), Join("\n", urls) + "\n"))
            && SplitLines("", Join("\n", lines)) == lines
  {
    var hs := Headers(serial, expires, servers, blaster);
    var lines := HeaderLines(hs);
    HeadersAreGood(lib, serial, expires, servers, blaster);
    HeaderBufferIsLines(hs);
    HeaderLinesAreLines(hs);
    JoinedLinesSolid(lines);
    SplitLinesJoin(lines);
    SplitBlankAt(Join("\n", lines), Join("\n", urls) + "\n");
    DataParts(Join("\n", lines), Join("\n", urls));
  }

  lemma {:induction false} TextIsRead(lib: Library, serial: string, expires: Moment, servers: seq<string>, urls: seq<string>,
                   blaster: Option<string>, sign: string -> Bytes)
    requires Sane(lib) && Readable(lib, serial, expires) && GoodItems(servers, urls, blaster)
    ensures var made := Generate(serial, expires, servers, urls, blaster, sign);
            made.Ok? && ParsedText(lib, Decoded(made.value)) == made
  {
    var c := Generate(serial, expires, servers, urls, blaster, sign).value;
    var lines := HeaderLines(Headers(serial, expires, servers, blaster));
    Base64.HexRoundTrip(c.signature);
    assert Decoded(c) == Base64.Hexlify(c.signature) + ['\n'] + c.data;
    SplitOnceAt(Base64.Hexlify(c.signature), '\n', c.data);
    DataFallsApart(lib, serial, expires, servers, blaster, urls);
    HeadersAreGood(lib, serial, expires, servers, blaster);
    HeaderLinesAreRead(lib, Headers(serial, expires, servers, blaster), NO_FIELDS);
    HeadersAreRead(lib, serial, expires, servers, blaster);
    UrlsAreRead(urls);
  }

  /** Whatever run of the base64 class stands between the boundaries is what parse() takes. */
  lemma {:induction false} BoundariesMatch(inner: string, rest: string)
    requires inner != "" && forall c :: c in inner ==> Base64.InClass(c)
    ensures MatchCookie(BOUNDARY_START + inner + BOUNDARY_END + rest) == Some(|inner|)
    ensures (BOUNDARY_START + inner + BOUNDARY_END + rest)[|BOUNDARY_START|..][..|inner|] == inner
  {
    var s := BOUNDARY_START + inner + BOUNDARY_END + rest;
    var tail := s[|BOUNDARY_START|..];
    assert tail == inner + (BOUNDARY_END + rest);
    assert tail[|inner|] == BOUNDARY_END[0];
    forall i | 0 <= i < |inner| ensures Base64.InClass(tail[i]) {
      assert tail[i] == inner[i] && inner[i] in inner;
    }
    RunLengthIs(tail, |inner|);
    assert tail[|inner|..] == BOUNDARY_END + rest;
    assert BOUNDARY_START <= s;
  }

  lemma {:induction false} InnerInClass(lib: Library, c: Cookie)
    ensures Inner(lib, c) != "" && forall x :: x in Inner(lib, c) ==> Base64.InClass(x)
  {
    var bytes := lib.encode(Decoded(c));
    Base64.EncodedInClass(bytes);
    Base64.WrappedInClass(Base64.Encode(bytes), 64);
  }

  lemma {:induction false} EncodedMatches(lib: Library, c: Cookie, rest: string)
    ensures MatchCookie(Encoded(lib, c) + rest) == Some(|Inner(lib, c)|)
    ensures (Encoded(lib, c) + rest)[|BOUNDARY_START|..][..|Inner(lib, c)|] == Inner(lib, c)
  {
    InnerInClass(lib, c);
    BoundariesMatch(Inner(lib, c), rest);
  }

  /** Parsing an encoded cookie is reading back its text. */
  lemma {:induction false} LayersComeOff(lib: Library, c: Cookie, rest: string)
    requires Sane(lib)
    ensures Parsed(lib, Encoded(lib, c) + rest) == ParsedText(lib, Decoded(c))
  {
    EncodedMatches(lib, c, rest);
    Base64.WrappedRoundTrip(lib.encode(Decoded(c)), 64);
  }

  // ---------------------------------------------------------------- when it holds exactly

  /** What header parsing can assign. */
  predicate CleanFields(f: Fields) {
    && (f.servers.Some? ==> forall s :: s in f.servers.value ==> GoodServer(s))
    && (f.blaster.Some? ==> GoodBlaster(f.blaster.value))
  }

  lemma {:induction false} ReadLineIsClean(lib: Library, line: string, f: Fields)
    requires OneLine(line) && CleanFields(f) && ReadLine(lib, line, f).Ok?
    ensures CleanFields(ReadLine(lib, line, f).value)
  {
    SplitOnceShape(line, ':');
    var (k, v) := SplitOnce(line, ':').value;
    StripTrims(v);
    assert Within(v, line);
    var w := Strip(v);
    assert OneLine(w);
    forall s | s in SplitServers(w) ensures GoodServer(s) {
      CleanedSplitShape(w, SERVER_SEPARATORS, s);
    }
  }

  lemma {:induction false} ReadLinesAreClean(lib: Library, lines: seq<string>, f: Fields)
    requires (forall x :: x in lines ==> OneLine(x)) && CleanFields(f) && ReadLines(lib, lines, f).Ok?
    ensures CleanFields(ReadLines(lib, lines, f).value)
    decreases |lines|
  {
    if lines != [] {
      assert lines[0] in lines && forall x :: x in lines[1..] ==> x in lines;
      ReadLineIsClean(lib, lines[0], f);
      ReadLinesAreClean(lib, lines[1..], ReadLine(lib, lines[0], f).value);
    }
  }

  /** Whatever text is parsed, the items of the cookie are good ones. */
  lemma {:induction false} ParsedItemsAreGood(lib: Library, text: string)
    requires ParsedText(lib, text).Ok?
    ensures var c := ParsedText(lib, text).value; GoodItems(c.servers, c.urls, c.blaster)
  {
    var data := SplitOnce(text, '\n').value.1;
    var (header, body) := SplitBlank(data).value;
    var lines := SplitLines("", header);
    forall x | x in lines ensures OneLine(x) {
      LinesAreOneLine("", header, x);
    }
    ReadLinesAreClean(lib, lines, NO_FIELDS);
    forall u | u in Cleaned(Split(body, {'\n'})) ensures GoodUrl(u) {
      CleanedSplitShape(body, {'\n'}, u);
    }
  }

  /** A generated cookie survives encoding and parsing, with the same signed data, signature,
      servers, URLs and blaster, exactly when its items are good; text after it does not matter. */
  lemma {:induction false} RoundTripExactly(lib: Library, serial: string, expires: Moment, servers: seq<string>, urls: seq<string>,
                         blaster: Option<string>, sign: string -> Bytes, rest: string)
    requires Sane(lib) && Readable(lib, serial, expires)
    ensures var made := Generate(serial, expires, servers, urls, blaster, sign);
            && made.Ok?
            && (Parsed(lib, Encoded(lib, made.value) + rest) == made <==> GoodItems(servers, urls, blaster))
  {
    var made := Generate(serial, expires, servers, urls, blaster, sign);
    LayersComeOff(lib, made.value, rest);
    if GoodItems(servers, urls, blaster) {
      TextIsRead(lib, serial, expires, servers, urls, blaster, sign);
    } else if ParsedText(lib, Decoded(made.value)) == made {
      ParsedItemsAreGood(lib, Decoded(made.value));
    }
  }

  // ---------------------------------------------------------------- errors that are no ScopeError

  /** Some header line has no colon, and every line before it is read without an error. */
  predicate ColonlessLine(lib: Library, lines: seq<string>, f: Fields) {
    exists j :: 0 <= j < |lines| && ':' !in lines[j] && ReadLines(lib, lines[..j], f).Ok?
  }

  lemma {:induction false} LineEscapes(lib: Library, line: string, f: Fields)
    ensures ReadLine(lib, line, f) == Err(ValueError) <==> ':' !in line
  {
    SplitOnceExactly(line, ':');
  }

  lemma {:induction false} LinesEscape(lib: Library, lines: seq<string>, f: Fields)
    ensures ReadLines(lib, lines, f) == Err(ValueError) <==> ColonlessLine(lib, lines, f)
    decreases |lines|
  {
    if lines != [] {
      var read := ReadLine(lib, lines[0], f);
      LineEscapes(lib, lines[0], f);
      if read.Ok? {
        LinesEscape(lib, lines[1..], read.value);
        if ColonlessLine(lib, lines[1..], read.value) {
          var j :| 0 <= j < |lines| - 1 && ':' !in lines[1..][j] && ReadLines(lib, lines[1..][..j], read.value).Ok?;
          assert lines[..j + 1][1..] == lines[1..][..j];
          assert ':' !in lines[j + 1] && ReadLines(lib, lines[..j + 1], f).Ok?;
        }
        if ColonlessLine(lib, lines, f) {
          var j :| 0 <= j < |lines| && ':' !in lines[j] && ReadLines(lib, lines[..j], f).Ok?;
          assert j > 0 && lines[..j][1..] == lines[1..][..j - 1];
          assert lines[1..][j - 1] == lines[j];
        }
      } else if ColonlessLine(lib, lines, f) {
        var j :| 0 <= j < |lines| && ':' !in lines[j] && ReadLines(lib, lines[..j], f).Ok?;
        assert j > 0 ==> lines[..j][0] == lines[0];
      } else {
        assert lines[..0] == [];
        assert ReadLines(lib, lines[..0], f).Ok?;
      }
    }
  }

  /** An odd number of hexadecimal digits, or something that is no digit. */
  predicate BadHex(s: string) {
    |s| % 2 == 1 || exists c :: c in s && Base64.DigitValue(c).None?
  }

  /** Three parts, and a signature or a header line that lets a ValueError through. */
  predicate TextEscapes(lib: Library, text: string) {
    && SplitOnce(text, '\n').Some?
    && var (signature, data) := SplitOnce(text, '\n').value;
    && SplitBlank(data).Some?
    && (BadHex(signature) || ColonlessLine(lib, SplitLines("", SplitBlank(data).value.0), NO_FIELDS))
  }

  lemma {:induction false} TextEscapesExactly(lib: Library, text: string)
    ensures ParsedText(lib, text) == Err(ValueError) <==> TextEscapes(lib, text)
  {
    if SplitOnce(text, '\n').Some? {
      var (signature, data) := SplitOnce(text, '\n').value;
      Base64.HexRejectsExactly(signature);
      if SplitBlank(data).Some? {
        LinesEscape(lib, SplitLines("", SplitBlank(data).value.0), NO_FIELDS);
      }
    }
  }

  /** parse() is meant to report a malformed cookie as a ScopeError, but catches TypeError where the
      library raises ValueError, and unpacks a header line unguarded.  A ValueError escapes exactly
      when the boundaries are in order and the base64 is incomplete, or its bytes are no UTF-8, or
      the signature is no hexadecimal, or the first header line that is at fault lacks a colon. */
  lemma {:induction false} ValueErrorExactly(lib: Library, data: string)
    ensures Parsed(lib, data) == Err(ValueError) <==>
            exists n: nat :: Matches(data, n) &&
              var bytes := Base64.Decode(data[|BOUNDARY_START|..][..n]);
              (bytes.None? || lib.decode(bytes.value).None? || TextEscapes(lib, lib.decode(bytes.value).value))
  {
    var m := MatchCookie(data);
    if m.Some? {
      MatchIsUnique(data, m.value);
      var bytes := Base64.Decode(data[|BOUNDARY_START|..][..m.value]);
      if bytes.Some? && lib.decode(bytes.value).Some? {
        TextEscapesExactly(lib, lib.decode(bytes.value).value);
      }
    }
    forall n: nat | Matches(data, n) ensures m == Some(n) {
      MatchIsUnique(data, n);
    }
  }

  /** A cookie that holds just this text. */
  function CookieOf(lib: Library, text: string): string {
    BOUNDARY_START + (Base64.Encode(lib.encode(text)) + "\n") + BOUNDARY_END
  }

  lemma {:induction false} CookieOfParsed(lib: Library, text: string)
    requires Sane(lib)
    ensures Parsed(lib, CookieOf(lib, text)) == ParsedText(lib, text)
  {
    var inner := Base64.Encode(lib.encode(text)) + "\n";
    Base64.EncodedInClass(lib.encode(text));
    Base64.LineRoundTrip(lib.encode(text));
    BoundariesMatch(inner, "");
    assert BOUNDARY_START + inner + BOUNDARY_END + "" == CookieOf(lib, text);
  }

  /** One cookie for each of the four: "A" is incomplete base64; then, for any library, bytes that it
      does not decode; and, if it decodes what it encoded, a signature that is not hexadecimal and a
      line without a colon. */
  lemma {:induction false} FourEscapes(lib: Library, undecodable: Bytes, line: string)
    requires lib.decode(undecodable).None? && line != "" && OneLine(line) && ':' !in line
    ensures Parsed(lib, BOUNDARY_START + "A" + BOUNDARY_END) == Err(ValueError)
    ensures Parsed(lib, BOUNDARY_START + Base64.Encode(undecodable) + "\n" + BOUNDARY_END) == Err(ValueError)
    ensures Sane(lib) ==> Parsed(lib, CookieOf(lib, "x\n\n\n")) == Err(ValueError)
    ensures Sane(lib) ==> Parsed(lib, CookieOf(lib, "\n" + line + "\n\n")) == Err(ValueError)
  {
    BoundariesMatch("A", "");
    assert BOUNDARY_START + "A" + BOUNDARY_END + "" == BOUNDARY_START + "A" + BOUNDARY_END;
    UndecodableEscapes(lib, undecodable);
    if Sane(lib) {
      CookieOfParsed(lib, "x\n\n\n");
      BadSignatureEscapes(lib);
      CookieOfParsed(lib, "\n" + line + "\n\n");
      ColonlessEscapes(lib, line);
    }
  }

  lemma {:induction false} UndecodableEscapes(lib: Library, bytes: Bytes)
    requires lib.decode(bytes).None?
    ensures Parsed(lib, BOUNDARY_START + Base64.Encode(bytes) + "\n" + BOUNDARY_END) == Err(ValueError)
  {
    Base64.EncodedInClass(bytes);
    Base64.LineRoundTrip(bytes);
    InnerParsed(lib, Base64.Encode(bytes) + "\n", bytes);
    assert BOUNDARY_START + Base64.Encode(bytes) + "\n" == BOUNDARY_START + (Base64.Encode(bytes) + "\n");
  }

  lemma {:induction false} InnerParsed(lib: Library, inner: string, bytes: Bytes)
    requires inner != "" && forall c :: c in inner ==> Base64.InClass(c)
    requires Base64.Decode(inner) == Some(bytes) && lib.decode(bytes).None?
    ensures Parsed(lib, BOUNDARY_START + inner + BOUNDARY_END) == Err(ValueError)
  {
    BoundariesMatch(inner, "");
    assert BOUNDARY_START + inner + BOUNDARY_END + "" == BOUNDARY_START + inner + BOUNDARY_END;
  }

  lemma {:induction false} BadSignatureEscapes(lib: Library)
    ensures ParsedText(lib, "x\n\n\n") == Err(ValueError)
  {
    SplitOnceAt("x", '\n', "\n\n");
    assert "x" + ['\n'] + "\n\n" == "x\n\n\n";
    SplitBlankAt("", "");
    assert "" + "\n\n" + "" == "\n\n";
    TextEscapesExactly(lib, "x\n\n\n");
  }

  lemma {:induction false} ColonlessEscapes(lib: Library, line: string)
    requires line != "" && OneLine(line) && ':' !in line
    ensures ParsedText(lib, "\n" + line + "\n\n") == Err(ValueError)
  {
    assert "\n" + line + "\n\n" == "" + ['\n'] + (line + "\n\n");
    SplitOnceAt("", '\n', line + "\n\n");
    assert IsBreak('\n') && line == Join("\n", [line]);
    JoinedLinesSolid([line]);
    SplitBlankAt(line, "");
    assert line + "\n\n" + "" == line + "\n\n";
    SplitLinesJoin([line]);
    assert ReadLines(lib, [line][..0], NO_FIELDS).Ok?;
    assert ColonlessLine(lib, [line], NO_FIELDS);
    LinesEscape(lib, [line], NO_FIELDS);
  }

  // ---------------------------------------------------------------- megacookies

  lemma {:induction false} FindAllSkips(junk: string, s: string)
    requires '-' !in junk
    ensures FindAll(junk + s) == FindAll(s)
  {
    if junk == "" {
      assert junk + s == s;
    } else {
      var t := junk + s;
      assert t[0] == junk[0] && BOUNDARY_START[0] == '-';
      assert t[1..] == junk[1..] + s;
      FindAllSkips(junk[1..], s);
    }
  }

  lemma {:induction false} FindAllTakes(lib: Library, c: Cookie, s: string)
    ensures FindAll(Encoded(lib, c) + s) == [Encoded(lib, c)] + FindAll(s)
  {
    var t := Encoded(lib, c) + s;
    EncodedMatches(lib, c, s);
    var length := |BOUNDARY_START| + |Inner(lib, c)| + |BOUNDARY_END|;
    assert t[..length] == Encoded(lib, c) && t[length..] == s;
  }

  /** Encoded cookies one after the other, each with some text before it. */
  function Megacookie(lib: Library, cookies: seq<Cookie>, before: seq<string>): string
    requires |before| == |cookies|
  {
    if cookies == [] then ""
    else before[0] + Encoded(lib, cookies[0]) + Megacookie(lib, cookies[1..], before[1..])
  }

  function AllEncoded(lib: Library, cookies: seq<Cookie>): seq<string> {
    if cookies == [] then [] else [Encoded(lib, cookies[0])] + AllEncoded(lib, cookies[1..])
  }

  lemma {:induction false} SplitOffOne(lib: Library, c: Cookie, before: string, tail: string)
    requires '-' !in before
    ensures FindAll(before + (Encoded(lib, c) + tail)) == [Encoded(lib, c)] + FindAll(tail)
  {
    FindAllTakes(lib, c, tail);
    FindAllSkips(before, Encoded(lib, c) + tail);
  }

  lemma {:induction false} Regroup(a: string, b: string, c: string, d: string)
    ensures a + b + c + d == a + (b + (c + d))
  {
  }

  /** Splitting gives back the encoded cookies in order, whatever text without a hyphen is
      between them and after the last. */
  lemma {:induction false} SplitUndoesConcatenation(lib: Library, cookies: seq<Cookie>, before: seq<string>, after: string)
    requires |before| == |cookies| && '-' !in after && forall b :: b in before ==> '-' !in b
    ensures FindAll(Megacookie(lib, cookies, before) + after) == AllEncoded(lib, cookies)
    decreases |cookies|
  {
    if cookies == [] {
      FindAllSkips(after, "");
      assert after + "" == after && "" + after == after;
    } else {
      var tail := Megacookie(lib, cookies[1..], before[1..]) + after;
      assert before[0] in before && forall b :: b in before[1..] ==> b in before;
      SplitUndoesConcatenation(lib, cookies[1..], before[1..], after);
      SplitOffOne(lib, cookies[0], before[0], tail);
      Regroup(before[0], Encoded(lib, cookies[0]), Megacookie(lib, cookies[1..], before[1..]), after);
    }
  }
}
