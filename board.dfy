/** The board both generations of the puzzle engine work on: an n×n grid of letters,
    positions on it, the eight moves between neighbouring cells, and the reference
    meaning of "a word can be traced on the grid". */
module Board {
  import opened Seqs

  /** A (row, column) position. */
  type Pos = (int, int)

  /** A grid of letters, row by row (`Vec<Vec<char>>` in the current library). */
  type Grid = seq<seq<char>>

  predicate InBounds(n: int, p: Pos) {
    0 <= p.0 < n && 0 <= p.1 < n
  }

  predicate IsSquare(g: Grid) {
    forall y | 0 <= y < |g| :: |g[y]| == |g|
  }

  /** The letter at `p`; off the board, a NUL that no word contains. */
  function CellAt(g: Grid, p: Pos): char {
    if 0 <= p.0 < |g| && 0 <= p.1 < |g[p.0]| then g[p.0][p.1] else '\0'
  }

  /** The Moore neighbourhood: at most one apart in each coordinate, and not the same
      cell. There is no wrap-around at the edges. */
  predicate Adjacent(p: Pos, q: Pos) {
    p != q && -1 <= q.0 - p.0 <= 1 && -1 <= q.1 - p.1 <= 1
  }

  /** The eight moves (`GameDirections`). */
  datatype Direction = Up | UpLeft | UpRight | Down | DownLeft | DownRight | Left | Right

  /** The order in which the search and the direction finder look at neighbours. */
  const SearchOrder: seq<Direction> := [Up, UpLeft, UpRight, Down, DownLeft, DownRight, Left, Right]

  function Move(p: Pos, d: Direction): (q: Pos)
    ensures Adjacent(p, q)
  {
    match d
    case Up => (p.0 - 1, p.1)
    case UpLeft => (p.0 - 1, p.1 - 1)
    case UpRight => (p.0 - 1, p.1 + 1)
    case Down => (p.0 + 1, p.1)
    case DownLeft => (p.0 + 1, p.1 - 1)
    case DownRight => (p.0 + 1, p.1 + 1)
    case Left => (p.0, p.1 - 1)
    case Right => (p.0, p.1 + 1)
  }

  /** The guard the current library writes in front of each move (`y > 0`,
      `x < grid_length - 1`, ...). */
  predicate CanMove(n: int, p: Pos, d: Direction) {
    match d
    case Up => p.0 > 0
    case UpLeft => p.0 > 0 && p.1 > 0
    case UpRight => p.0 > 0 && p.1 < n - 1
    case Down => p.0 < n - 1
    case DownLeft => p.0 < n - 1 && p.1 > 0
    case DownRight => p.0 < n - 1 && p.1 < n - 1
    case Left => p.1 > 0
    case Right => p.1 < n - 1
  }

  /** From a cell on the board, the guard admits a move exactly when it stays on the
      board. */
  lemma CanMoveIff(n: int, p: Pos, d: Direction)
    requires InBounds(n, p)
    ensures CanMove(n, p, d) <==> InBounds(n, Move(p, d))
  {
  }

  /** Every neighbour is reached by exactly the move this function names, and that move
      is one of the eight the search tries. */
  function DirectionTo(p: Pos, q: Pos): (d: Direction)
    requires Adjacent(p, q)
    ensures Move(p, d) == q && d in SearchOrder
  {
    if q.0 < p.0 then (if q.1 < p.1 then UpLeft else if q.1 > p.1 then UpRight else Up)
    else if q.0 > p.0 then (if q.1 < p.1 then DownLeft else if q.1 > p.1 then DownRight else Down)
    else if q.1 < p.1 then Left
    else Right
  }

  /** A self-avoiding walk on an n×n board: every cell on the board, each step to a
      neighbour, no cell twice. */
  predicate IsWalk(n: int, path: seq<Pos>) {
    && (forall i | 0 <= i < |path| :: InBounds(n, path[i]))
    && (forall i | 0 <= i < |path| - 1 :: Adjacent(path[i], path[i + 1]))
    && Distinct(path)
  }

  /** The cells of `path` carry the letters of `w`, in order. */
  predicate Spells(g: Grid, path: seq<Pos>, w: string) {
    |path| == |w| && forall i | 0 <= i < |w| :: CellAt(g, path[i]) == w[i]
  }

  /** No cell of `path` is in `blocked`. */
  predicate Avoids(path: seq<Pos>, blocked: set<Pos>) {
    forall i | 0 <= i < |path| :: path[i] !in blocked
  }

  /** The remaining letters `w` can be traced onward from `p`: some walk that starts at
      `p` and continues through cells outside `blocked` spells `w` after `p`. */
  ghost predicate TraceableFrom(g: Grid, w: string, p: Pos, blocked: set<Pos>) {
    exists path: seq<Pos> :: IsWalk(|g|, [p] + path) && Spells(g, path, w) && Avoids(path, blocked)
  }

  /** The word `w` can be traced on the grid: some self-avoiding walk spells it. */
  ghost predicate Traceable(g: Grid, w: string) {
    exists path: seq<Pos> :: IsWalk(|g|, path) && Spells(g, path, w)
  }

  lemma TraceableFromEmpty(g: Grid, p: Pos, blocked: set<Pos>)
    requires InBounds(|g|, p)
    ensures TraceableFrom(g, [], p, blocked)
  {
    var path: seq<Pos> := [];
    assert [p] + path == [p];
    assert IsWalk(|g|, [p] + path) && Spells(g, path, []) && Avoids(path, blocked);
  }

  /** One step forward: a neighbour carrying the next letter, from which the rest can be
      traced without coming back to `p`, extends to a trace of the whole. */
  lemma {:induction false} TraceExtend(g: Grid, w: string, p: Pos, q: Pos, blocked: set<Pos>)
    requires |w| > 0 && InBounds(|g|, p) && Adjacent(p, q)
    requires CellAt(g, q) == w[0] && q !in blocked
    requires TraceableFrom(g, w[1..], q, blocked + {p})
    ensures TraceableFrom(g, w, p, blocked)
  {
    var rest :| IsWalk(|g|, [q] + rest) && Spells(g, rest, w[1..]) && Avoids(rest, blocked + {p});
    var path := [q] + rest;
    var full := [p] + path;
    assert forall i | 1 <= i < |full| :: full[i] == path[i - 1];
    assert forall i | 0 <= i < |path| :: path[i] != p by {
      forall i | 0 <= i < |path| ensures path[i] != p {
        if i > 0 {
          assert path[i] == rest[i - 1];
        }
      }
    }
    assert IsWalk(|g|, full);
    assert Spells(g, path, w);
    assert Avoids(path, blocked);
  }

  /** One step back: a trace of a non-empty remainder starts with a neighbour carrying
      its first letter, from which the rest is traced without coming back to `p`. */
  lemma {:induction false} TraceFirstStep(g: Grid, w: string, p: Pos, blocked: set<Pos>) returns (q: Pos)
    requires |w| > 0 && TraceableFrom(g, w, p, blocked)
    ensures Adjacent(p, q) && InBounds(|g|, q) && CellAt(g, q) == w[0] && q !in blocked
    ensures TraceableFrom(g, w[1..], q, blocked + {p})
  {
    var path :| IsWalk(|g|, [p] + path) && Spells(g, path, w) && Avoids(path, blocked);
    var full := [p] + path;
    q := path[0];
    assert full[0] == p && full[1] == q;
    assert Adjacent(full[0], full[1]);
    var rest := path[1..];
    assert full[1..] == path == [q] + rest;
    WalkTail(|g|, full);
    WalkHeadFresh(|g|, full);
    assert p !in path;
    forall i | 0 <= i < |rest| ensures rest[i] !in blocked + {p} {
      assert rest[i] == path[i + 1];
    }
    assert Avoids(rest, blocked + {p});
    assert Spells(g, rest, w[1..]);
  }

  /** The first cell of a walk does not come back. */
  lemma WalkHeadFresh(n: int, path: seq<Pos>)
    requires IsWalk(n, path) && path != []
    ensures path[0] !in path[1..]
  {
    forall j | 0 <= j < |path| - 1 ensures path[1..][j] != path[0] {
      assert path[1..][j] == path[j + 1];
    }
  }

  /** Dropping the first cell of a walk leaves a walk. */
  lemma WalkTail(n: int, path: seq<Pos>)
    requires IsWalk(n, path) && path != []
    ensures IsWalk(n, path[1..])
  {
    forall i, j | 0 <= i < j < |path| - 1 ensures path[1..][i] != path[1..][j] {
      assert path[i + 1] != path[j + 1];
    }
  }

  /** A larger blocked set can only remove traces. */
  lemma TraceableFromAntitone(g: Grid, w: string, p: Pos, small: set<Pos>, large: set<Pos>)
    requires small <= large && TraceableFrom(g, w, p, large)
    ensures TraceableFrom(g, w, p, small)
  {
    var path :| IsWalk(|g|, [p] + path) && Spells(g, path, w) && Avoids(path, large);
    assert Avoids(path, small);
  }

  /** A word is traceable exactly when it can be traced onward from some cell holding
      its first letter, with nothing blocked: the way the word list calls the search. */
  lemma {:induction false} TraceableFromStart(g: Grid, w: string, s: Pos)
    requires |w| > 0 && InBounds(|g|, s) && CellAt(g, s) == w[0]
    requires TraceableFrom(g, w[1..], s, {})
    ensures Traceable(g, w)
  {
    var rest :| IsWalk(|g|, [s] + rest) && Spells(g, rest, w[1..]) && Avoids(rest, {});
    var path := [s] + rest;
    assert Spells(g, path, w);
  }

  lemma {:induction false} TraceableStart(g: Grid, w: string) returns (s: Pos)
    requires |w| > 0 && Traceable(g, w)
    ensures InBounds(|g|, s) && CellAt(g, s) == w[0]
    ensures TraceableFrom(g, w[1..], s, {})
  {
    var path :| IsWalk(|g|, path) && Spells(g, path, w);
    s := path[0];
    var rest := path[1..];
    assert [s] + rest == path;
    assert Spells(g, rest, w[1..]);
    assert Avoids(rest, {});
  }

  /** The cells marked in a visited mask. */
  ghost function Marked(v: array2<bool>): set<Pos>
    reads v
  {
    set y, x | 0 <= y < v.Length0 && 0 <= x < v.Length1 && v[y, x] :: (y, x)
  }

  /** The grid's letters row by row, as `grid.iter().flatten()` yields them. */
  function Flatten(g: Grid): seq<char> {
    if g == [] then [] else Flatten(g[..|g| - 1]) + g[|g| - 1]
  }

  /** The positions of the first `rows` rows of an n-wide board, row by row. */
  function CellsOfRows(rows: nat, n: nat): (cs: seq<Pos>)
    ensures |cs| == rows * n
  {
    if rows == 0 then [] else CellsOfRows(rows - 1, n) + seq(n, x => (rows - 1, x))
  }

  /** The letters at the given positions. */
  function LettersAt(g: Grid, cs: seq<Pos>): (s: string)
    ensures |s| == |cs| && forall i | 0 <= i < |cs| :: s[i] == CellAt(g, cs[i])
  {
    Map(p => CellAt(g, p), cs)
  }

  lemma {:induction false} CellsOfRowsComplete(rows: nat, n: nat, p: Pos)
    requires 0 <= p.0 < rows && 0 <= p.1 < n
    ensures p in CellsOfRows(rows, n)
  {
    if p.0 == rows - 1 {
      var last := seq(n, x => (rows - 1, x));
      assert last[p.1] == p;
      assert CellsOfRows(rows, n)[(rows - 1) * n + p.1] == p;
    } else {
      CellsOfRowsComplete(rows - 1, n, p);
    }
  }

  /** Flattening reads the letters at the cells in row-major order. */
  lemma {:induction false} FlattenIsRowMajor(g: Grid, rows: nat)
    requires IsSquare(g) && rows <= |g|
    ensures Flatten(g[..rows]) == LettersAt(g, CellsOfRows(rows, |g|))
  {
    if rows > 0 {
      FlattenIsRowMajor(g, rows - 1);
      assert g[..rows][..rows - 1] == g[..rows - 1];
      var row := seq(|g|, x => (rows - 1, x));
      assert LettersAt(g, CellsOfRows(rows, |g|))
          == LettersAt(g, CellsOfRows(rows - 1, |g|)) + LettersAt(g, row);
      assert LettersAt(g, row) == g[rows - 1];
    }
  }

  /** A self-avoiding walk uses each cell of the board at most once, so its cells form a
      sub-multiset of the board's cells. */
  lemma WalkWithinBoard(n: nat, path: seq<Pos>)
    requires IsWalk(n, path)
    ensures multiset(path) <= multiset(CellsOfRows(n, n))
    ensures |path| <= n * n
  {
    var all := CellsOfRows(n, n);
    forall p ensures multiset(path)[p] <= multiset(all)[p] {
      DistinctMultiplicity(path, p);
      if p in path {
        CellsOfRowsComplete(n, n, p);
      }
    }
    SubMultisetCard(multiset(path), multiset(all));
  }

  /** Tracing a word never needs more copies of a letter than the grid has: the letters
      of a traceable word form a sub-multiset of the grid's letters. */
  lemma TraceableLettersInGrid(g: Grid, w: string)
    requires IsSquare(g) && Traceable(g, w)
    ensures multiset(w) <= multiset(Flatten(g))
  {
    var path :| IsWalk(|g|, path) && Spells(g, path, w);
    var all := CellsOfRows(|g|, |g|);
    WalkWithinBoard(|g|, path);
    var f := p => CellAt(g, p);
    MapSubMultiset(f, path, all);
    assert Map(f, path) == w;
    FlattenIsRowMajor(g, |g|);
    assert g[..|g|] == g;
  }
}
