/** The puzzle generator of the earlier prototype, `GeneratedGame<N>`. Its grid is an
    N×N array of characters in which `'0'` marks a cell the walk has not reached, its
    moves carry the same `< N - 2` guards as its word search, and its word list is a
    fixed placeholder. The generator fails for N < 2: with N = 0 it draws from an
    empty range, and with N = 1 the first direction search evaluates `N - 2`, which
    underflows. */
module ProtoGames {
  import opened Wrappers
  import opened Seqs
  import opened Board
  import opened Words
  import opened Games
  import opened ProtoWords

  /** The character that marks an empty cell. */
  const Empty: char := '0'

  /** `GeneratedGame<N>`: the letters row by row, and the word list. */
  datatype ProtoGame = ProtoGame(grid: Grid, validWords: seq<string>)

  /** A neighbour of `p` that the prototype's guard admits and that is still empty. */
  predicate ProtoFreeNeighbour(grid: array2<char>, p: Pos, d: Direction)
    requires grid.Length0 == grid.Length1 && InBounds(grid.Length0, p)
    reads grid
  {
    var q := Move(p, d);
    ProtoCanMove(grid.Length0, p, d) && grid[q.0, q.1] == Empty
  }

  /** The prototype's walk cannot go on from `p`: no neighbour its guards admit is free. */
  predicate ProtoBoxedIn(grid: array2<char>, p: Pos)
    requires grid.Length0 == grid.Length1 && InBounds(grid.Length0, p)
    reads grid
  {
    forall d :: !ProtoFreeNeighbour(grid, p, d)
  }

  /** `output` holds, in order, exactly the free moves among the first `k` directions
      of the order up, up-left, up-right, down, down-left, down-right, left, right. */
  ghost predicate ProtoCollectedUpTo(grid: array2<char>, p: Pos, k: nat, output: seq<Direction>)
    requires grid.Length0 == grid.Length1 && InBounds(grid.Length0, p)
    reads grid
  {
    && (forall d :: d in output <==> DirectionIndex(d) < k && ProtoFreeNeighbour(grid, p, d))
    && (forall i, j | 0 <= i < j < |output| :: DirectionIndex(output[i]) < DirectionIndex(output[j]))
  }

  /** One `if` block of the prototype's `calculate_valid_directions`. */
  method ProtoOfferIfFree(grid: array2<char>, p: Pos, d: Direction, output: seq<Direction>)
    returns (extended: seq<Direction>)
    requires grid.Length0 == grid.Length1 && InBounds(grid.Length0, p)
    requires ProtoCollectedUpTo(grid, p, DirectionIndex(d), output)
    ensures ProtoCollectedUpTo(grid, p, DirectionIndex(d) + 1, extended)
  {
    var q := Move(p, d);
    if ProtoCanMove(grid.Length0, p, d) && grid[q.0, q.1] == Empty {
      extended := output + [d];
    } else {
      extended := output;
    }
  }

  lemma ProtoCollectedAll(grid: array2<char>, p: Pos, output: seq<Direction>)
    requires grid.Length0 == grid.Length1 && InBounds(grid.Length0, p)
    requires ProtoCollectedUpTo(grid, p, 8, output)
    ensures forall d :: d in output <==> ProtoFreeNeighbour(grid, p, d)
    ensures forall i, j | 0 <= i < j < |output| :: DirectionIndex(output[i]) < DirectionIndex(output[j])
  {
  }

  /** The prototype's `calculate_valid_directions`: the moves its guards admit to a cell
      still holding `'0'`, each once, in the fixed order. */
  method ProtoValidDirections(grid: array2<char>, p: Pos) returns (output: seq<Direction>)
    requires grid.Length0 == grid.Length1 && InBounds(grid.Length0, p)
    ensures forall d :: d in output <==> ProtoFreeNeighbour(grid, p, d)
    ensures forall i, j | 0 <= i < j < |output| :: DirectionIndex(output[i]) < DirectionIndex(output[j])
  {
    output := [];
    output := ProtoOfferIfFree(grid, p, Up, output);
    output := ProtoOfferIfFree(grid, p, UpLeft, output);
    output := ProtoOfferIfFree(grid, p, UpRight, output);
    output := ProtoOfferIfFree(grid, p, Down, output);
    output := ProtoOfferIfFree(grid, p, DownLeft, output);
    output := ProtoOfferIfFree(grid, p, DownRight, output);
    output := ProtoOfferIfFree(grid, p, Left, output);
    output := ProtoOfferIfFree(grid, p, Right, output);
    ProtoCollectedAll(grid, p, output);
  }

  /** The first `|path|` letters of `word` lie on the cells of `path`, in order; exactly
      the cells off `path` hold `'0'`, and every other cell holds a letter of the word. */
  ghost predicate ProtoLaid(grid: array2<char>, word: string, path: seq<Pos>)
    reads grid
  {
    var n := grid.Length0;
    && grid.Length1 == n && |path| <= |word|
    && (forall i | 0 <= i < |path| :: InBounds(n, path[i]) && grid[path[i].0, path[i].1] == word[i])
    && (forall a, b | 0 <= a < n && 0 <= b < n :: grid[a, b] == Empty <==> (a, b) !in path)
    && (forall a, b | 0 <= a < n && 0 <= b < n :: grid[a, b] == Empty || grid[a, b] in word)
  }

  /** The state of a pass after the letters before `point`: they are laid along the
      walk `path`, which goes on to the cell `point`, still holding `'0'`. */
  ghost predicate ProtoPlacing(grid: array2<char>, word: string, path: seq<Pos>, point: Pos)
    reads grid
  {
    ProtoLaid(grid, word, path) && IsWalk(grid.Length0, path + [point])
  }

  /** A pass that is boxed in: the letters so far are laid along the walk `path`, and
      the guards admit no free neighbour of its last cell. */
  ghost predicate ProtoStuck(grid: array2<char>, word: string, path: seq<Pos>)
    reads grid
  {
    && ProtoLaid(grid, word, path) && path != [] && IsWalk(grid.Length0, path)
    && ProtoBoxedIn(grid, path[|path| - 1])
  }

  /** One turn of the prototype's placing loop: the next letter goes into the current
      cell, then the walk steps to a random free neighbour. It stops (`moved` is
      false) only when its guards admit none. */
  method ProtoPlaceStep(grid: array2<char>, word: string, k: nat, ghost path: seq<Pos>, point: Pos)
    returns (moved: bool, next: Pos)
    requires ProtoPlacing(grid, word, path, point) && |path| == k < |word|
    requires forall k | 0 <= k < |word| :: word[k] != Empty
    modifies grid
    ensures moved ==> ProtoPlacing(grid, word, path + [point], next)
    ensures !moved ==> ProtoStuck(grid, word, path + [point])
    ensures forall a, b | 0 <= a < grid.Length0 && 0 <= b < grid.Length1 ::
      grid[a, b] == Empty || grid[a, b] in word
  {
    var n := grid.Length0;
    assert (path + [point])[k] == point;
    grid[point.0, point.1] := word[k];
    var directions := ProtoValidDirections(grid, point);
    if directions == [] {
      return false, point;
    }
    assert directions[0] in directions;
    var d :| d in directions;
    next := Move(point, d);
    ProtoCanMoveBounds(n, point, d);
    WalkSnoc(n, path + [point], next);
    moved := true;
  }

  /** One pass of the prototype's `'outer` loop: a grid of `'0'`, a random start cell,
      then each letter written into the current cell before a step to a random free
      neighbour; the pass is abandoned when the walk is boxed in, after the last letter
      as well. The sentinel only works for words without a `'0'` in them. The letters
      written lie along a self-avoiding walk `path` and every other cell still holds
      `'0'`. When the word is placed, so does the cell `last` the walk stepped to;
      otherwise the walk's last cell is boxed in. */
  method ProtoPlaceWord(word: string, n: nat) returns (grid: array2<char>, placed: bool, ghost path: seq<Pos>, ghost last: Pos)
    requires n > 0 && forall k | 0 <= k < |word| :: word[k] != Empty
    ensures fresh(grid) && grid.Length0 == n && grid.Length1 == n
    ensures |path| <= |word| && forall i | 0 <= i < |path| ::
      InBounds(n, path[i]) && grid[path[i].0, path[i].1] == word[i]
    ensures forall a, b | 0 <= a < n && 0 <= b < n :: grid[a, b] == Empty <==> (a, b) !in path
    ensures forall a, b | 0 <= a < n && 0 <= b < n :: grid[a, b] == Empty || grid[a, b] in word
    ensures placed ==> |path| == |word| && IsWalk(n, path + [last])
    ensures placed ==> InBounds(n, last) && grid[last.0, last.1] == Empty
    ensures !placed ==> path != [] && IsWalk(n, path)
    ensures !placed ==> ProtoBoxedIn(grid, path[|path| - 1])
  {
    grid := new char[n, n]((_, _) => Empty);
    var y :| 0 <= y < n;
    var x :| 0 <= x < n;
    var point := (y, x);
    path := [];
    last := point;
    for k := 0 to |word|
      invariant |path| == k && ProtoPlacing(grid, word, path, point)
    {
      var moved, next := ProtoPlaceStep(grid, word, k, path, point);
      if !moved {
        path := path + [point];
        placed := false;
        return;
      }
      path := path + [point];
      point := next;
    }
    placed := true;
    last := point;
    assert (path + [last])[|path|] == last;
    forall i | 0 <= i < |path| ensures path[i] != last {
      assert (path + [last])[i] == path[i];
    }
  }

  /** Every neighbour of `p` that the prototype's guards admit already lies on `wk`. */
  ghost predicate ProtoEnclosed(n: nat, wk: seq<Pos>, p: Pos) {
    forall d :: ProtoCanMove(n, p, d) ==> Move(p, d) in wk
  }

  /** A walk a pass of the prototype's `'outer` loop gave up on: a self-avoiding walk
      that carried the first `|wk|` letters of `word`, with every neighbour its guards
      admit from the last cell already on it. */
  ghost predicate ProtoAbandoned(n: nat, word: string, wk: seq<Pos>) {
    0 < |wk| <= |word| && IsWalk(n, wk) && ProtoEnclosed(n, wk, wk[|wk| - 1])
  }

  /** When exactly the cells off the walk hold `'0'` and none the guards admit next to
      its last cell does, the walk is enclosed. */
  lemma ProtoBoxedInAbandoned(grid: array2<char>, word: string, path: seq<Pos>)
    requires grid.Length0 == grid.Length1
    requires 0 < |path| <= |word| && IsWalk(grid.Length0, path)
    requires forall a, b | 0 <= a < grid.Length0 && 0 <= b < grid.Length0 ::
      grid[a, b] == Empty <==> (a, b) !in path
    requires ProtoBoxedIn(grid, path[|path| - 1])
    ensures ProtoAbandoned(grid.Length0, word, path)
  {
    var n, p := grid.Length0, path[|path| - 1];
    forall d | ProtoCanMove(n, p, d) ensures Move(p, d) in path {
      ProtoCanMoveBounds(n, p, d);
      assert !ProtoFreeNeighbour(grid, p, d);
    }
  }

  /** The prototype's fill: every cell still holding `'0'` gets a random letter from
      'a' to 'z'; the letters of the walk stay. */
  method ProtoFillEmpty(grid: array2<char>)
    modifies grid
    ensures forall y, x | 0 <= y < grid.Length0 && 0 <= x < grid.Length1 ::
      if old(grid[y, x]) == Empty then IsLowerAscii(grid[y, x]) else grid[y, x] == old(grid[y, x])
  {
    for y := 0 to grid.Length0
      invariant forall a, b | 0 <= a < grid.Length0 && 0 <= b < grid.Length1 ::
        if a < y && old(grid[a, b]) == Empty then IsLowerAscii(grid[a, b]) else grid[a, b] == old(grid[a, b])
    {
      for x := 0 to grid.Length1
        invariant forall a, b | 0 <= a < grid.Length0 && 0 <= b < grid.Length1 ::
          if (a < y || (a == y && b < x)) && old(grid[a, b]) == Empty then IsLowerAscii(grid[a, b])
          else grid[a, b] == old(grid[a, b])
      {
        if grid[y, x] == Empty {
          var c := ProtoRandomLetter();
          grid[y, x] := c;
        }
      }
    }
  }

  /** The letters of an N×N array, row by row. */
  function Rows(grid: array2<char>): (g: Grid)
    requires grid.Length0 == grid.Length1
    reads grid
    ensures |g| == grid.Length0 && IsSquare(g)
    ensures forall y, x | 0 <= y < |g| && 0 <= x < |g| :: g[y][x] == grid[y, x]
  {
    seq(grid.Length0, y requires 0 <= y < grid.Length0 reads grid =>
      seq(grid.Length1, x requires 0 <= x < grid.Length1 reads grid => grid[y, x]))
  }

  /** What a prototype puzzle of side `n` satisfies: a square grid of lower-case letters
      (no `'0'` is left), the placeholder word list, and some dictionary word of 2·n to
      3·n − 1 letters traceable on the grid. */
  ghost predicate ProtoGeneratedFrom(game: ProtoGame, n: nat, dict: seq<string>) {
    && |game.grid| == n && IsSquare(game.grid)
    && (forall y, x | 0 <= y < n && 0 <= x < n :: IsLowerAscii(game.grid[y][x]))
    && game.validWords == ["todo"]
    && exists w :: w in dict && 2 * n <= |w| < 3 * n && Traceable(game.grid, w)
  }

  /** `GeneratedGame::<N>::new`: draws a length in [2·N, 3·N), a dictionary word of that
      length, walks it into a grid of `'0'` (starting afresh whenever the walk is boxed
      in), fills the remaining `'0'` cells with random letters, and attaches the
      placeholder list. A puzzle only comes out for N ≥ 3. The model gives up after
      `maxAttempts` retries; `target` is the drawn word and `abandoned` the walks of
      the passes given up on. */
  method NewProtoGame(n: nat, dict: seq<string>, maxAttempts: nat)
    returns (r: Result<ProtoGame, GameError>, ghost target: string, ghost abandoned: seq<seq<Pos>>)
    requires n >= 2 && IsDictionary(dict)
    ensures r.Success? ==> ProtoGeneratedFrom(r.value, n, dict) && n >= 3
    ensures r.Failure? && r.error.NoWordOfLength? ==>
      2 * n <= r.error.length < 3 * n && forall w | w in dict :: |w| != r.error.length
    ensures r.Failure? && r.error.AttemptsExhausted? ==>
      && target in dict && 2 * n <= |target| < 3 * n
      && |abandoned| == maxAttempts + 1
      && forall wk | wk in abandoned :: ProtoAbandoned(n, target, wk)
  {
    target, abandoned := [], [];
    var targetWordSize :| 2 * n <= targetWordSize < 3 * n;
    var targetWord := RandomNLengthWord(dict, targetWordSize);
    if targetWord.None? {
      r := Failure(NoWordOfLength(targetWordSize));
      return;
    }
    var word := targetWord.value;
    assert IsWord(word);
    target := word;
    var grid, placed;
    ghost var path, last;
    grid, placed, path, last, abandoned := ProtoPlaceWithRestarts(word, n, maxAttempts);
    if !placed {
      r := Failure(AttemptsExhausted);
      return;
    }
    var game := ProtoFinishGame(word, n, grid, path, last, dict);
    r := Success(game);
  }

  /** One pass, as the restart loop sees it: a placed word, or a walk given up on. */
  method ProtoPass(word: string, n: nat)
    returns (grid: array2<char>, placed: bool, ghost path: seq<Pos>, ghost last: Pos)
    requires n > 0 && forall k | 0 <= k < |word| :: word[k] != Empty
    ensures fresh(grid) && grid.Length0 == n && grid.Length1 == n
    ensures placed ==> |path| == |word| && IsWalk(n, path + [last])
    ensures placed ==> forall i | 0 <= i < |path| ::
      InBounds(n, path[i]) && grid[path[i].0, path[i].1] == word[i]
    ensures forall a, b | 0 <= a < n && 0 <= b < n :: grid[a, b] == Empty || grid[a, b] in word
    ensures !placed ==> ProtoAbandoned(n, word, path)
  {
    grid, placed, path, last := ProtoPlaceWord(word, n);
    if !placed {
      ProtoBoxedInAbandoned(grid, word, path);
    }
  }

  /** The prototype's `'outer` loop: passes of `ProtoPlaceWord` until one places the
      word, at most `maxAttempts + 1` of them. `abandoned` holds the walks of the passes
      given up on; when no pass succeeds there are `maxAttempts + 1` of them. */
  method ProtoPlaceWithRestarts(word: string, n: nat, maxAttempts: nat)
    returns (grid: array2<char>, placed: bool, ghost path: seq<Pos>, ghost last: Pos,
             ghost abandoned: seq<seq<Pos>>)
    requires n > 0 && forall k | 0 <= k < |word| :: word[k] != Empty
    ensures fresh(grid) && grid.Length0 == n && grid.Length1 == n
    ensures placed ==> |path| == |word| && IsWalk(n, path + [last])
    ensures placed ==> forall i | 0 <= i < |path| ::
      InBounds(n, path[i]) && grid[path[i].0, path[i].1] == word[i]
    ensures forall a, b | 0 <= a < n && 0 <= b < n :: grid[a, b] == Empty || grid[a, b] in word
    ensures !placed ==> |abandoned| == maxAttempts + 1
    ensures forall wk | wk in abandoned :: ProtoAbandoned(n, word, wk)
  {
    abandoned := [];
    grid, placed, path, last := ProtoPass(word, n);
    var attempts := 0;
    while !placed
      invariant 0 <= attempts <= maxAttempts && |abandoned| == attempts
      invariant forall wk | wk in abandoned :: ProtoAbandoned(n, word, wk)
      invariant !placed ==> ProtoAbandoned(n, word, path)
      invariant fresh(grid) && grid.Length0 == n && grid.Length1 == n
      invariant placed ==> |path| == |word| && IsWalk(n, path + [last])
      invariant placed ==> forall i | 0 <= i < |path| ::
        InBounds(n, path[i]) && grid[path[i].0, path[i].1] == word[i]
      invariant forall a, b | 0 <= a < n && 0 <= b < n :: grid[a, b] == Empty || grid[a, b] in word
      decreases maxAttempts - attempts
    {
      abandoned := abandoned + [path];
      if attempts == maxAttempts {
        return;
      }
      attempts := attempts + 1;
      grid, placed, path, last := ProtoPass(word, n);
    }
  }

  /** The end of `GeneratedGame::<N>::new` once the walk is placed: the fill, and the
      placeholder word list. */
  method ProtoFinishGame(word: string, n: nat, grid: array2<char>, ghost path: seq<Pos>, ghost last: Pos, dict: seq<string>)
    returns (game: ProtoGame)
    requires IsWord(word) && word in dict && 2 * n <= |word| < 3 * n
    requires grid.Length0 == n && grid.Length1 == n
    requires |path| == |word| && IsWalk(n, path + [last])
    requires forall i | 0 <= i < |path| ::
      InBounds(n, path[i]) && grid[path[i].0, path[i].1] == word[i]
    requires forall a, b | 0 <= a < n && 0 <= b < n :: grid[a, b] == Empty || grid[a, b] in word
    modifies grid
    ensures ProtoGeneratedFrom(game, n, dict) && n >= 3
  {
    WalkWithinBoard(n, path + [last]);
    SmallBoardsTooSmall(n, |path| + 1);
    ProtoFillEmpty(grid);
    var g := Rows(grid);
    assert Spells(g, path, word);
    assert IsWalk(n, path) by {
      assert path == (path + [last])[..|path|];
      WalkPrefix(n, path + [last], |path|);
    }
    assert Traceable(g, word);
    game := ProtoGame(g, ["todo"]);
  }
}
