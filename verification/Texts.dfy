/** The string operations that scope cookies are made of. */
module Texts {
  import opened Wrappers
  import opened Sequences

  /** What str.strip() removes. */
  predicate IsSpace(c: char) {
    || '\t' <= c <= '\r' || '\U{1c}' <= c <= ' ' || c == '\U{85}' || c == '\U{a0}' || c == '\U{1680}'
    || '\U{2000}' <= c <= '\U{200a}' || c in {'\U{2028}', '\U{2029}', '\U{202f}', '\U{205f}', '\U{3000}'}
  }

  /** Where str.splitlines() breaks a line. */
  predicate IsBreak(c: char) {
    '\n' <= c <= '\r' || '\U{1c}' <= c <= '\U{1e}' || c in {'\U{85}', '\U{2028}', '\U{2029}'}
  }

  function Strip(s: string): string {
    Stripped(s, IsSpace)
  }

  /** No white space at its ends; perhaps empty. */
  predicate Trimmed(s: string) {
    BareEnds(s, IsSpace)
  }

  lemma {:induction false} StripTrimmed(s: string)
    requires Trimmed(s)
    ensures Strip(s) == s && Strip(" " + s) == s
  {
    assert (" " + s)[1..] == s;
  }

  /** Every character of a is one of b's. */
  predicate Within(a: string, b: string) { forall c :: c in a ==> c in b }

  lemma {:induction false} StripTrims(s: string)
    ensures Trimmed(Strip(s)) && Within(Strip(s), s)
  {
    StrippedBares(s, IsSpace);
  }

  // ---------------------------------------------------------------- joining and splitting

  function Join(sep: string, items: seq<string>): string {
    if items == [] then ""
    else if |items| == 1 then items[0]
    else items[0] + sep + Join(sep, items[1..])
  }

  /** re.split() on single characters, and str.split() on one. */
  function Split(s: string, seps: set<char>): (r: seq<string>)
    ensures r != []
  {
    if s == "" then [""]
    else
      var rest := Split(s[1..], seps);
      if s[0] in seps then [""] + rest else [[s[0]] + rest[0]] + rest[1..]
  }

  predicate Without(s: string, seps: set<char>) {
    forall c :: c in s ==> c !in seps
  }

  lemma {:induction false} SplitFirst(item: string, sep: char, rest: string, seps: set<char>)
    requires Without(item, seps) && sep in seps
    ensures Split(item + [sep] + rest, seps) == [item] + Split(rest, seps)
  {
    var s := item + [sep] + rest;
    if item == "" {
      assert s[1..] == rest;
    } else {
      assert s[1..] == item[1..] + [sep] + rest;
      assert forall c :: c in item[1..] ==> c in item;
      SplitFirst(item[1..], sep, rest, seps);
      assert item[0] in item;
      assert [item[0]] + item[1..] == item;
    }
  }

  lemma {:induction false} SplitLast(item: string, seps: set<char>)
    requires Without(item, seps)
    ensures Split(item, seps) == [item]
  {
    if item != "" {
      assert forall c :: c in item[1..] ==> c in item;
      SplitLast(item[1..], seps);
      assert item[0] in item;
      assert [item[0]] + item[1..] == item;
    }
  }

  /** Splitting undoes joining, unless there was nothing to join. */
  lemma {:induction false} SplitJoin(items: seq<string>, sep: char, seps: set<char>)
    requires sep in seps && forall x :: x in items ==> Without(x, seps)
    ensures Split(Join([sep], items), seps) == if items == [] then [""] else items
  {
    if |items| == 1 {
      SplitLast(items[0], seps);
    } else if items != [] {
      SplitJoin(items[1..], sep, seps);
      SplitFirst(items[0], sep, Join([sep], items[1..]), seps);
      assert [items[0]] + items[1..] == items;
    }
  }

  /** [s.strip() for s in parts if s.strip() != ''] */
  function Cleaned(parts: seq<string>): seq<string> {
    if parts == [] then []
    else if Strip(parts[0]) == "" then Cleaned(parts[1..])
    else [Strip(parts[0])] + Cleaned(parts[1..])
  }

  lemma {:induction false} CleanedJoined(items: seq<string>, junk: seq<string>)
    requires forall x :: x in items ==> Trimmed(x) && x != ""
    requires forall x :: x in junk ==> x == ""
    ensures Cleaned(items + junk) == items
    decreases |items| + |junk|
  {
    if items != [] {
      assert (items + junk)[1..] == items[1..] + junk;
      assert forall x :: x in items[1..] ==> x in items;
      CleanedJoined(items[1..], junk);
      StripTrimmed(items[0]);
      assert [items[0]] + items[1..] == items;
    } else if junk != [] {
      assert items + junk == junk;
      assert junk[0] in junk;
      StripTrimmed(junk[0]);
      assert forall x :: x in junk[1..] ==> x in junk;
      CleanedJoined([], junk[1..]);
      assert [] + junk[1..] == junk[1..];
    }
  }

  /** What a cleaned list can hold. */
  lemma {:induction false} CleanedShape(parts: seq<string>, x: string)
    requires x in Cleaned(parts)
    ensures x != "" && Trimmed(x) && exists part :: part in parts && Within(x, part)
  {
    StripTrims(parts[0]);
    if x in Cleaned(parts[1..]) {
      CleanedShape(parts[1..], x);
    } else {
      assert parts[0] in parts && Within(x, parts[0]);
    }
  }

  lemma {:induction false} SplitShape(s: string, seps: set<char>, part: string)
    requires part in Split(s, seps)
    ensures Within(part, s) && Without(part, seps)
  {
    if s != "" {
      var rest := Split(s[1..], seps);
      assert Within(s[1..], s);
      if part in rest {
        SplitShape(s[1..], seps, part);
      } else if s[0] !in seps && part == [s[0]] + rest[0] {
        SplitShape(s[1..], seps, rest[0]);
      }
    }
  }

  /** Items cleaned out of a split text are what splitting and cleaning cannot change. */
  lemma {:induction false} CleanedSplitShape(s: string, seps: set<char>, x: string)
    requires x in Cleaned(Split(s, seps))
    ensures x != "" && Trimmed(x) && Within(x, s) && Without(x, seps)
  {
    CleanedShape(Split(s, seps), x);
    var part :| part in Split(s, seps) && Within(x, part);
    SplitShape(s, seps, part);
  }

  /** s.split(c, 1), when there is something to split. */
  function SplitOnce(s: string, c: char): Option<(string, string)> {
    if s == "" then None
    else if s[0] == c then Some(("", s[1..]))
    else
      match SplitOnce(s[1..], c)
      case None => None
      case Some((a, b)) => Some(([s[0]] + a, b))
  }

  lemma {:induction false} SplitOnceAt(a: string, c: char, b: string)
    requires c !in a
    ensures SplitOnce(a + [c] + b, c) == Some((a, b))
  {
    var s := a + [c] + b;
    if a == "" {
      assert s[1..] == b;
    } else {
      assert s[1..] == a[1..] + [c] + b;
      SplitOnceAt(a[1..], c, b);
      assert [a[0]] + a[1..] == a;
    }
  }

  lemma {:induction false} SplitOnceShape(s: string, c: char)
    requires SplitOnce(s, c).Some?
    ensures var (a, b) := SplitOnce(s, c).value; s == a + [c] + b && c !in a
  {
    if s[0] != c {
      SplitOnceShape(s[1..], c);
    }
  }

  lemma {:induction false} SplitOnceExactly(s: string, c: char)
    ensures SplitOnce(s, c).Some? <==> c in s
  {
    if s != "" && s[0] != c {
      SplitOnceExactly(s[1..], c);
    }
  }

  /** s.split('\n\n', 1), when there is a blank line. */
  function SplitBlank(s: string): Option<(string, string)> {
    if |s| < 2 then None
    else if s[0] == '\n' && s[1] == '\n' then Some(("", s[2..]))
    else
      match SplitBlank(s[1..])
      case None => None
      case Some((a, b)) => Some(([s[0]] + a, b))
  }

  /** No blank line inside, and no newline at the end. */
  predicate Solid(a: string) {
    && (forall i :: 0 <= i < |a| - 1 ==> !(a[i] == '\n' && a[i + 1] == '\n'))
    && (a != "" ==> a[|a| - 1] != '\n')
  }

  lemma {:induction false} SplitBlankAt(a: string, b: string)
    requires Solid(a)
    ensures SplitBlank(a + "\n\n" + b) == Some((a, b))
  {
    var s := a + "\n\n" + b;
    if a == "" {
      assert s[2..] == b;
    } else {
      assert s[1..] == a[1..] + "\n\n" + b;
      SplitBlankAt(a[1..], b);
      assert [a[0]] + a[1..] == a;
    }
  }

  /** Lines that are not empty, joined by newlines, are solid. */
  lemma {:induction false} JoinedLinesSolid(lines: seq<string>)
    requires forall x :: x in lines ==> x != "" && '\n' !in x
    ensures Solid(Join("\n", lines))
    ensures lines != [] ==> lines[0] != "" && Join("\n", lines) != "" && Join("\n", lines)[0] == lines[0][0]
  {
    if |lines| > 1 {
      assert forall x :: x in lines[1..] ==> x in lines;
      var rest := Join("\n", lines[1..]);
      JoinedLinesSolid(lines[1..]);
      var a := lines[0] + "\n" + rest;
      assert lines[0] in lines && lines[1] in lines && lines[1..][0] == lines[1];
      forall i | 0 <= i < |a| - 1 ensures !(a[i] == '\n' && a[i + 1] == '\n') {
        if i < |lines[0]| {
          assert a[i] == lines[0][i];
        } else if i > |lines[0]| {
          assert a[i] == rest[i - |lines[0]| - 1] && a[i + 1] == rest[i - |lines[0]|];
        } else {
          assert a[i + 1] == rest[0] && rest[0] == lines[1][0] && lines[1][0] in lines[1];
        }
      }
    } else if |lines| == 1 {
      assert lines[0] in lines;
      assert forall i :: 0 <= i < |lines[0]| ==> lines[0][i] in lines[0];
    }
  }

  // ---------------------------------------------------------------- splitlines

  /** How many characters the line break at the start of s takes; 0 when there is none. */
  function BreakLength(s: string): (n: nat)
    ensures n <= |s|
  {
    if s == "" || !IsBreak(s[0]) then 0
    else if |s| > 1 && s[0] == '\r' && s[1] == '\n' then 2
    else 1
  }

  /** str.splitlines(), with the start of the current line already read. */
  function SplitLines(line: string, s: string): seq<string>
    decreases |s|
  {
    if s == "" then if line == "" then [] else [line]
    else if BreakLength(s) > 0 then [line] + SplitLines("", s[BreakLength(s)..])
    else SplitLines(line + [s[0]], s[1..])
  }

  predicate OneLine(s: string) { forall c :: c in s ==> !IsBreak(c) }

  lemma {:induction false} SplitLinesReads(line: string, more: string, s: string)
    requires OneLine(more)
    ensures SplitLines(line, more + s) == SplitLines(line + more, s)
    decreases |more|
  {
    if more == "" {
      assert more + s == s && line + more == line;
    } else {
      assert (more + s)[1..] == more[1..] + s;
      assert more[0] in more && forall c :: c in more[1..] ==> c in more;
      SplitLinesReads(line + [more[0]], more[1..], s);
      assert line + [more[0]] + more[1..] == line + more;
    }
  }

  lemma {:induction false} LinesAreOneLine(line: string, s: string, x: string)
    requires OneLine(line) && x in SplitLines(line, s)
    ensures OneLine(x)
    decreases |s|
  {
    if s != "" {
      if BreakLength(s) == 0 {
        LinesAreOneLine(line + [s[0]], s[1..], x);
      } else if x != line {
        LinesAreOneLine("", s[BreakLength(s)..], x);
      }
    }
  }

  /** splitlines() undoes joining by newlines. */
  lemma {:induction false} SplitLinesJoin(lines: seq<string>)
    requires forall x :: x in lines ==> x != "" && OneLine(x)
    ensures SplitLines("", Join("\n", lines)) == lines
  {
    if lines != [] {
      assert lines[0] in lines && "" + lines[0] == lines[0];
      if |lines| == 1 {
        assert lines[0] + "" == lines[0];
        SplitLinesReads("", lines[0], "");
      } else {
        var rest := Join("\n", lines[1..]);
        var s := "\n" + rest;
        assert forall x :: x in lines[1..] ==> x in lines;
        SplitLinesJoin(lines[1..]);
        assert lines[0] + "\n" + rest == lines[0] + s;
        SplitLinesReads("", lines[0], s);
        assert s[1..] == rest && BreakLength(s) == 1;
        assert [lines[0]] + lines[1..] == lines;
      }
    }
  }

  /** Trimmed items that are not empty stay trimmed when they are joined by semicolons. */
  lemma {:induction false} TrimmedJoin(items: seq<string>)
    requires forall x :: x in items ==> Trimmed(x) && x != ""
    ensures Trimmed(Join(";", items)) && (items != [] ==> Join(";", items) != "")
  {
    if items != [] {
      assert items[0] in items && forall x :: x in items[1..] ==> x in items;
      TrimmedJoin(items[1..]);
    }
  }
}
