/** The tile pyramid of a GigaPan image: a quadtree, its tile names and its size. */
module Pyramid {
  import opened Wrappers

  // ---------------------------------------------------------------- powers and ceilings

  function Pow2(n: nat): (p: nat)
    ensures p > 0
  {
    if n == 0 then 1 else 2 * Pow2(n - 1)
  }

  lemma {:induction false} Pow2Sum(a: nat, b: nat)
    ensures Pow2(a + b) == Pow2(a) * Pow2(b)
  {
    if a > 0 {
      Pow2Sum(a - 1, b);
    }
  }

  /** round_up(a / b), on exact quotients. */
  function CeilDiv(a: nat, b: nat): nat
    requires b > 0
  {
    (a + b - 1) / b
  }

  /** The ceiling is the least n with n * b >= a. */
  lemma {:induction false} CeilDivIsLeast(a: nat, b: nat, n: nat)
    requires b > 0
    ensures n >= CeilDiv(a, b) <==> n * b >= a
  {
    var q, r := (a + b - 1) / b, (a + b - 1) % b;
    assert a + b - 1 == q * b + r;
    if n >= q {
      assert n * b >= q * b by { Monotone(q, n, b); }
    } else {
      assert n * b <= (q - 1) * b by { Monotone(n, q - 1, b); }
      assert (q - 1) * b == q * b - b;
    }
  }

  lemma {:induction false} Monotone(a: nat, c: nat, b: nat)
    requires a <= c
    ensures a * b <= c * b
  {
  }

  lemma {:induction false} HalvesAt(a: nat, b: nat, k: nat)
    requires b > 0
    ensures k >= CeilDiv(a, 2 * b) <==> k >= CeilDiv(CeilDiv(a, b), 2)
  {
    CeilDivIsLeast(a, 2 * b, k);
    CeilDivIsLeast(CeilDiv(a, b), 2, k);
    CeilDivIsLeast(a, b, k * 2);
    assert k * (2 * b) == k * 2 * b;
  }

  /** Halving a ceiling is the ceiling of the doubled divisor. */
  lemma {:induction false} CeilDivHalves(a: nat, b: nat)
    requires b > 0
    ensures CeilDiv(a, 2 * b) == CeilDiv(CeilDiv(a, b), 2)
  {
    HalvesAt(a, b, CeilDiv(a, 2 * b));
    HalvesAt(a, b, CeilDiv(CeilDiv(a, b), 2));
  }

  // ---------------------------------------------------------------- log_2

  function Log2Of(y: nat): nat {
    if y == 0 then 0 else 1 + Log2Of(y / 2)
  }

  lemma {:induction false} Log2OfBounds(y: nat)
    ensures y < Pow2(Log2Of(y))
    ensures y > 0 ==> Pow2(Log2Of(y) - 1) <= y
  {
    if y > 0 {
      Log2OfBounds(y / 2);
    }
  }

  /** log_2(): the smallest n with 2^n >= x. */
  method Log2(x: nat) returns (n: nat)
    requires x > 0
    ensures n == Log2Of(x - 1)
    ensures Pow2(n) >= x && forall m: nat :: m < n ==> Pow2(m) < x
  {
    n := 0;
    var y := x - 1;
    while y > 0
      invariant y >= 0 && n + Log2Of(y) == Log2Of(x - 1)
    {
      y := y / 2;
      n := n + 1;
    }
    Log2OfBounds(x - 1);
    forall m: nat | m < n ensures Pow2(m) < x {
      Pow2Monotone(m, n - 1);
    }
  }

  lemma {:induction false} Pow2Monotone(a: nat, b: nat)
    requires a <= b
    ensures Pow2(a) <= Pow2(b)
    decreases b
  {
    if a < b {
      Pow2Monotone(a, b - 1);
    }
  }

  // ---------------------------------------------------------------- the levels

  /** The grid of the finest level, and the number of levels. */
  datatype Grid = Grid(wide: nat, high: nat, levels: nat)

  function Max(a: nat, b: nat): nat { if a > b then a else b }

  function GridOf(width: nat, height: nat, tileSize: nat): (g: Grid)
    requires width > 0 && height > 0 && tileSize > 0
  {
    var wide, high := CeilDiv(width, tileSize), CeilDiv(height, tileSize);
    var most := Max(wide, high);
    Grid(wide, high, Log2Of(if most == 0 then 0 else most - 1) + 1)
  }

  predicate ProperGrid(g: Grid) {
    && g.wide > 0 && g.high > 0 && g.levels > 0
    && g.wide <= Pow2(g.levels - 1) && g.high <= Pow2(g.levels - 1)
    && (g.levels > 1 ==> Max(g.wide, g.high) > Pow2(g.levels - 2))
  }

  lemma {:induction false} GridIsProper(width: nat, height: nat, tileSize: nat)
    requires width > 0 && height > 0 && tileSize > 0
    ensures ProperGrid(GridOf(width, height, tileSize))
  {
    CeilDivIsLeast(width, tileSize, 0);
    CeilDivIsLeast(height, tileSize, 0);
    var g := GridOf(width, height, tileSize);
    Log2OfBounds(Max(g.wide, g.high) - 1);
  }

  function Columns(g: Grid, lvl: nat): nat
    requires lvl < g.levels
  {
    CeilDiv(g.wide, Pow2(g.levels - lvl - 1))
  }

  function Rows(g: Grid, lvl: nat): nat
    requires lvl < g.levels
  {
    CeilDiv(g.high, Pow2(g.levels - lvl - 1))
  }

  datatype Tile = Tile(level: nat, col: nat, row: nat)

  predicate InPyramid(g: Grid, t: Tile) {
    t.level < g.levels && t.col < Columns(g, t.level) && t.row < Rows(g, t.level)
  }

  /** Level 0 is a single tile, no level is wider or higher than a full quadtree, and no level
      is empty. */
  lemma {:induction false} LevelBounds(g: Grid, lvl: nat)
    requires ProperGrid(g) && lvl < g.levels
    ensures 0 < Columns(g, lvl) <= Pow2(lvl) && 0 < Rows(g, lvl) <= Pow2(lvl)
    ensures Columns(g, g.levels - 1) == g.wide && Rows(g, g.levels - 1) == g.high
  {
    var p := Pow2(g.levels - lvl - 1);
    Pow2Sum(lvl, g.levels - lvl - 1);
    assert lvl + (g.levels - lvl - 1) == g.levels - 1;
    CeilDivIsLeast(g.wide, p, Pow2(lvl));
    CeilDivIsLeast(g.high, p, Pow2(lvl));
    CeilDivIsLeast(g.wide, p, 0);
    CeilDivIsLeast(g.high, p, 0);
  }

  /** Each level has half the columns and rows of the next, rounded up. */
  lemma {:induction false} LevelHalves(g: Grid, lvl: nat)
    requires lvl + 1 < g.levels
    ensures Columns(g, lvl) == CeilDiv(Columns(g, lvl + 1), 2) && Rows(g, lvl) == CeilDiv(Rows(g, lvl + 1), 2)
  {
    CeilDivHalves(g.wide, Pow2(g.levels - lvl - 2));
    CeilDivHalves(g.high, Pow2(g.levels - lvl - 2));
  }

  function Parent(t: Tile): Tile
    requires t.level > 0
  {
    Tile(t.level - 1, t.col / 2, t.row / 2)
  }

  /** The tiles form a quadtree: every tile but the root has its parent in the pyramid, and every
      tile above the finest level is the parent of a tile in the pyramid. */
  lemma {:induction false} Quadtree(g: Grid, t: Tile)
    requires ProperGrid(g) && InPyramid(g, t)
    ensures t.level > 0 ==> InPyramid(g, Parent(t))
    ensures t.level + 1 < g.levels ==>
              InPyramid(g, Tile(t.level + 1, 2 * t.col, 2 * t.row))
              && Parent(Tile(t.level + 1, 2 * t.col, 2 * t.row)) == t
    ensures t.level == 0 ==> t == Tile(0, 0, 0)
  {
    LevelBounds(g, t.level);
    if t.level > 0 {
      LevelHalves(g, t.level - 1);
    }
    if t.level + 1 < g.levels {
      LevelHalves(g, t.level);
    }
  }

  // ---------------------------------------------------------------- iter_coords and tiles_in_gigapan

  /** A depth limit of None or 0 is no limit: the code tests it for truth. */
  predicate Within(maxDepth: Option<nat>, lvl: nat) {
    maxDepth.None? || maxDepth.value == 0 || lvl <= maxDepth.value
  }

  function TilesBelow(g: Grid, n: nat): nat
    requires n <= g.levels
  {
    if n == 0 then 0 else TilesBelow(g, n - 1) + TilesAt(g, n - 1)
  }

  function TilesAt(g: Grid, lvl: nat): nat
    requires lvl < g.levels
  {
    Columns(g, lvl) * Rows(g, lvl)
  }

  predicate Before(a: Tile, b: Tile) {
    || a.level < b.level
    || (a.level == b.level && a.col < b.col)
    || (a.level == b.level && a.col == b.col && a.row < b.row)
  }

  ghost predicate Ascending(ts: seq<Tile>) {
    forall i, j :: 0 <= i < j < |ts| ==> Before(ts[i], ts[j])
  }

  /** What iter_coords() and tiles_in_gigapan() compute first. */
  method MeasureGrid(width: nat, height: nat, tileSize: nat) returns (g: Grid)
    requires width > 0 && height > 0 && tileSize > 0
    ensures g == GridOf(width, height, tileSize) && ProperGrid(g)
  {
    var tilesWide, tilesHigh := CeilDiv(width, tileSize), CeilDiv(height, tileSize);
    GridIsProper(width, height, tileSize);
    var log := Log2(Max(tilesWide, tilesHigh));
    g := Grid(tilesWide, tilesHigh, log + 1);
  }

  /** iter_coords(): every tile of the pyramid within the depth limit, once, coarsest first. */
  method IterCoords(width: nat, height: nat, maxDepth: Option<nat>, tileSize: nat) returns (ts: seq<Tile>)
    requires width > 0 && height > 0 && tileSize > 0
    ensures Ascending(ts) && forall i, j :: 0 <= i < j < |ts| ==> ts[i] != ts[j]
    ensures var g := GridOf(width, height, tileSize);
            && (forall t :: t in ts <==> InPyramid(g, t) && Within(maxDepth, t.level))
            && (maxDepth == None || maxDepth.value == 0 ==> forall t :: t in ts <==> InPyramid(g, t))
            && (maxDepth.Some? && maxDepth.value > 0 ==> forall t :: t in ts <==> InPyramid(g, t) && t.level <= maxDepth.value)
            && ((forall lvl :: 0 <= lvl < g.levels ==> Within(maxDepth, lvl)) ==> |ts| == TilesBelow(g, g.levels))
  {
    var g := MeasureGrid(width, height, tileSize);
    ts := [];
    for lvl := 0 to g.levels
      invariant forall t :: t in ts <==> InPyramid(g, t) && Within(maxDepth, t.level) && t.level < lvl
      invariant Ascending(ts)
      invariant |ts| == TilesBelow(g, lvl)
    {
      if maxDepth.Some? && maxDepth.value != 0 {
        if lvl > maxDepth.value {
          assert !Within(maxDepth, lvl);
          AscendingIsDistinct(ts);
          return;
        }
      }
      ts := AppendLevel(ts, lvl, Columns(g, lvl), Rows(g, lvl));
    }
    AscendingIsDistinct(ts);
  }

  /** The two inner loops. */
  method AppendLevel(before: seq<Tile>, lvl: nat, ncols: nat, nrows: nat) returns (ts: seq<Tile>)
    requires Ascending(before) && forall t :: t in before ==> t.level < lvl
    ensures Ascending(ts) && |ts| == |before| + ncols * nrows
    ensures forall t :: t in ts <==> t in before || (t.level == lvl && t.col < ncols && t.row < nrows)
  {
    ts := before;
    for col := 0 to ncols
      invariant Ascending(ts) && |ts| == |before| + col * nrows
      invariant forall t :: t in ts <==> t in before || (t.level == lvl && t.col < col && t.row < nrows)
    {
      for row := 0 to nrows
        invariant Ascending(ts) && |ts| == |before| + col * nrows + row
        invariant forall t :: t in ts <==>
          t in before || (t.level == lvl && t.col < col && t.row < nrows) || (t.level == lvl && t.col == col && t.row < row)
      {
        assert forall i :: 0 <= i < |ts| ==> ts[i] in ts;
        ts := ts + [Tile(lvl, col, row)];
      }
    }
  }

  /** No tile is yielded twice. */
  lemma {:induction false} AscendingIsDistinct(ts: seq<Tile>)
    requires Ascending(ts)
    ensures forall i, j :: 0 <= i < j < |ts| ==> ts[i] != ts[j]
  {
    forall i, j | 0 <= i < j < |ts| ensures ts[i] != ts[j] {
      assert Before(ts[i], ts[j]);
    }
  }

  const TILE_SIZE: nat := 256

  /** tiles_in_gigapan() */
  method TilesInGigapan(width: nat, height: nat) returns (sum: nat)
    requires width > 0 && height > 0
    ensures var g := GridOf(width, height, TILE_SIZE); sum == TilesBelow(g, g.levels)
  {
    var g := MeasureGrid(width, height, TILE_SIZE);
    sum := 0;
    for lvl := 0 to g.levels
      invariant sum == TilesBelow(g, lvl)
    {
      sum := sum + TilesAt(g, lvl);
    }
  }

  /** The announced count is the number of tiles listed. */
  method CountMatchesList(width: nat, height: nat) returns (count: nat, ts: seq<Tile>)
    requires width > 0 && height > 0
    ensures count == |ts| && Ascending(ts)
    ensures forall t :: t in ts <==> InPyramid(GridOf(width, height, TILE_SIZE), t)
  {
    count := TilesInGigapan(width, height);
    ts := IterCoords(width, height, None, TILE_SIZE);
  }

  // ---------------------------------------------------------------- path_to_tile

  function Digit(col: nat, row: nat): char {
    "0123"[col % 2 + 2 * (row % 2)]
  }

  /** One quadtree digit a level, coarsest first. */
  function Digits(level: nat, col: nat, row: nat): (d: string)
    ensures |d| == level
  {
    if level == 0 then "" else Digits(level - 1, col / 2, row / 2) + [Digit(col, row)]
  }

  /** The directories: the name in groups of three, the last three characters apart. */
  function Directories(fn: string, i: nat): string
    decreases |fn| - i
  {
    if i + 3 < |fn| then "/" + fn[i..i + 3] + Directories(fn, i + 3) else ""
  }

  function PathOf(fn: string): string {
    (Directories(fn, 0) + "/" + fn + ".jpg")[1..]
  }

  /** x >> n, one bit at a time */
  function Shift(x: nat, n: nat): nat
    decreases n
  {
    if n == 0 then x else Shift(x / 2, n - 1)
  }

  lemma {:induction false} ShiftOneMore(x: nat, n: nat)
    ensures Shift(x, n) / 2 == Shift(x, n + 1)
    decreases n
  {
    if n > 0 {
      ShiftOneMore(x / 2, n - 1);
    }
  }

  lemma {:induction false} FullPath(fn: string)
    requires fn != "" && fn[0] != '/'
    ensures var full := Directories(fn, 0) + "/" + fn + ".jpg";
            full[0] == '/' && full[1] == fn[0]
  {
  }

  /** The first loop of path_to_tile(), over the bits from the highest down. */
  method FileName(level: nat, column: nat, row: nat) returns (fn: string)
    ensures fn == "r" + Digits(level, column, row)
  {
    fn := "r";
    var n := level;
    while n > 0
      invariant 0 <= n <= level
      invariant fn == "r" + Digits(level - n, Shift(column, n), Shift(row, n))
    {
      n := n - 1;
      ShiftOneMore(column, n);
      ShiftOneMore(row, n);
      var col, rw := Shift(column, n), Shift(row, n);
      var index := 0;
      if col % 2 != 0 {  // column & bit
        index := 1;
      }
      if rw % 2 != 0 {
        index := index + 2;
      }
      fn := fn + ["0123"[index]];
    }
  }

  method PathToTile(level: nat, column: nat, row: nat) returns (path: string)
    ensures path == PathOf("r" + Digits(level, column, row))
  {
    var fn := FileName(level, column, row);
    var dirs := "";
    var i := 0;
    while i + 3 < |fn|
      invariant dirs + Directories(fn, i) == Directories(fn, 0)
    {
      assert dirs + ("/" + fn[i..i + 3] + Directories(fn, i + 3)) == dirs + ("/" + fn[i..i + 3]) + Directories(fn, i + 3);
      dirs := dirs + ("/" + fn[i..i + 3]);
      i := i + 3;
    }
    path := dirs + "/" + fn + ".jpg";
    assert dirs == Directories(fn, 0);
    FullPath(fn);
    ghost var full := path;
    while path != "" && path[0] == '/'  // lstrip('/')
      invariant path == full || path == full[1..]
      decreases |path|
    {
      path := path[1..];
    }
  }

  lemma {:induction false} NameVectors()
    ensures Digits(5, 5, 3) == "00123" && Digits(5, 5, 5) == "00303"
  {
    assert Digits(0, 0, 0) == "" && Digits(1, 0, 0) == "0" && Digits(2, 0, 0) == "00";
    assert Digits(3, 1, 0) == "001" && Digits(4, 2, 1) == "0012";
    assert Digits(3, 1, 1) == "003" && Digits(4, 2, 2) == "0030";
  }

  /** A directory for every three characters, but for the last one to three. */
  lemma {:induction false} ShortPaths(fn: string)
    ensures |fn| <= 3 ==> PathOf(fn) == fn + ".jpg"
    ensures 3 < |fn| <= 6 ==> PathOf(fn) == fn[..3] + "/" + fn + ".jpg"
  {
    var full := Directories(fn, 0) + "/" + fn + ".jpg";
    if |fn| <= 3 {
      assert full == ["/"[0]] + (fn + ".jpg");
    } else if |fn| <= 6 {
      assert Directories(fn, 3) == "" && Directories(fn, 0) == "/" + fn[0..3];
      assert full == ["/"[0]] + (fn[..3] + "/" + fn + ".jpg");
    }
  }

  lemma {:induction false} LongerPaths(fn: string)
    requires 6 < |fn| <= 9
    ensures PathOf(fn) == fn[..3] + "/" + fn[3..6] + "/" + fn + ".jpg"
  {
    assert Directories(fn, 6) == "" && Directories(fn, 3) == "/" + fn[3..6];
    assert Directories(fn, 0) == "/" + fn[0..3] + ("/" + fn[3..6]);
    assert Directories(fn, 0) + "/" + fn + ".jpg" == ["/"[0]] + (fn[..3] + "/" + fn[3..6] + "/" + fn + ".jpg");
  }

  lemma {:induction false} SixLetters(fn: string)
    requires |fn| == 6
    ensures PathOf(fn) == [fn[0], fn[1], fn[2], '/', fn[0], fn[1], fn[2], fn[3], fn[4], fn[5], '.', 'j', 'p', 'g']
  {
    ShortPaths(fn);
    assert fn[..3] + "/" + fn + ".jpg"
        == [fn[0], fn[1], fn[2], '/', fn[0], fn[1], fn[2], fn[3], fn[4], fn[5], '.', 'j', 'p', 'g'];
  }

  /** The two examples of the documentation, with the ".jpg" that it leaves out. */
  lemma {:induction false} PathVectors(digits: string)
    ensures digits == Digits(5, 5, 3) ==> PathOf("r" + digits) == "r00/r00123.jpg"
    ensures digits == Digits(5, 5, 5) ==> PathOf("r" + digits) == "r00/r00303.jpg"
  {
    NameVectors();
    if |digits| == 5 {
      SixLetters("r" + digits);
    }
  }

  /** Digit k of the name tells bit level - 1 - k of the column (worth 1) and of the row (worth 2). */
  lemma {:induction false} DigitsAt(level: nat, col: nat, row: nat, k: nat)
    requires k < level
    ensures var n := level - 1 - k;
            Digits(level, col, row)[k] == "0123"[Shift(col, n) % 2 + 2 * (Shift(row, n) % 2)]
  {
    if k < level - 1 {
      DigitsAt(level - 1, col / 2, row / 2, k);
    }
  }

  /** A tile's name starts with its parent's. */
  lemma {:induction false} ParentPrefix(t: Tile)
    requires t.level > 0
    ensures Digits(Parent(t).level, Parent(t).col, Parent(t).row) <= Digits(t.level, t.col, t.row)
  {
  }

  lemma {:induction false} DigitsInjective(level: nat, c: nat, r: nat, c': nat, r': nat)
    requires c < Pow2(level) && r < Pow2(level) && c' < Pow2(level) && r' < Pow2(level)
    requires Digits(level, c, r) == Digits(level, c', r')
    ensures c == c' && r == r'
  {
    if level > 0 {
      var d, d' := Digits(level, c, r), Digits(level, c', r');
      assert d[..level - 1] == Digits(level - 1, c / 2, r / 2) && d[level - 1] == Digit(c, r);
      assert d'[..level - 1] == Digits(level - 1, c' / 2, r' / 2) && d'[level - 1] == Digit(c', r');
      DigitsInjective(level - 1, c / 2, r / 2, c' / 2, r' / 2);
      assert c % 2 + 2 * (r % 2) == c' % 2 + 2 * (r' % 2);
    }
  }

  lemma {:induction false} DigitsArePlain(level: nat, c: nat, r: nat)
    ensures '/' !in Digits(level, c, r)
  {
    if level > 0 {
      DigitsArePlain(level - 1, c / 2, r / 2);
    }
  }

  /** What follows the last slash. */
  function LastComponent(s: string): string {
    if s == "" || s[|s| - 1] == '/' then "" else LastComponent(s[..|s| - 1]) + [s[|s| - 1]]
  }

  lemma {:induction false} LastComponentOf(a: string, x: string)
    requires '/' !in x
    ensures LastComponent(a + "/" + x) == x
  {
    var s := a + "/" + x;
    if x == "" {
      assert s[|s| - 1] == '/';
    } else {
      assert s[..|s| - 1] == a + "/" + x[..|x| - 1];
      LastComponentOf(a, x[..|x| - 1]);
      assert s[|s| - 1] == x[|x| - 1];
    }
  }

  /** A path keeps the whole file name. */
  lemma {:induction false} NameOfPath(level: nat, col: nat, row: nat)
    ensures var fn := "r" + Digits(level, col, row); LastComponent("/" + PathOf(fn)) == fn + ".jpg"
  {
    var fn := "r" + Digits(level, col, row);
    var full := Directories(fn, 0) + "/" + fn + ".jpg";
    FullPath(fn);
    assert full == "/" + full[1..];
    assert full == Directories(fn, 0) + "/" + (fn + ".jpg");
    DigitsArePlain(level, col, row);
    LastComponentOf(Directories(fn, 0), fn + ".jpg");
  }

  lemma {:induction false} SameName(a: string, b: string)
    requires "r" + a + ".jpg" == "r" + b + ".jpg"
    ensures a == b
  {
    assert a == ("r" + a + ".jpg")[1..|a| + 1] && b == ("r" + b + ".jpg")[1..|b| + 1];
  }

  /** Different tiles of a pyramid have different paths. */
  lemma {:induction false} PathsAreDistinct(g: Grid, t: Tile, u: Tile)
    requires ProperGrid(g) && InPyramid(g, t) && InPyramid(g, u)
    requires PathOf("r" + Digits(t.level, t.col, t.row)) == PathOf("r" + Digits(u.level, u.col, u.row))
    ensures t == u
  {
    NameOfPath(t.level, t.col, t.row);
    NameOfPath(u.level, u.col, u.row);
    SameName(Digits(t.level, t.col, t.row), Digits(u.level, u.col, u.row));
    LevelBounds(g, t.level);
    LevelBounds(g, u.level);
    DigitsInjective(t.level, t.col, t.row, u.col, u.row);
  }
}
