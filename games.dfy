/** The puzzle of the current library: a square grid of letters that hides one long
    dictionary word along a self-avoiding walk, together with the list of every
    dictionary word traceable on it, and the membership test used to score guesses.

    Generation draws random numbers; the model picks nondeterministically among the
    values the library could draw. The library retries the walk without limit; the
    model retries at most `maxAttempts` more times and then fails. */
module Games {
  import opened Wrappers
  import opened Seqs
  import opened Board
  import opened Words

  /** A finished puzzle: the letters row by row, and the words that can be found. */
  datatype Game = Game(grid: Grid, validWords: seq<string>)
  {
    /** `validate`: binary search for `word` in the word list. A `true` answer always
        names a listed word; on a sorted list (as generation produces from a sorted
        dictionary) the answer is exactly membership. */
    method Validate(word: string) returns (r: bool)
      ensures r ==> word in validWords
      ensures Sorted(validWords) ==> (r <==> word in validWords)
    {
      var lo, hi := 0, |validWords|;
      while lo < hi
        invariant 0 <= lo <= hi <= |validWords|
        invariant Sorted(validWords) ==> forall i | 0 <= i < lo :: StrLt(validWords[i], word)
        invariant Sorted(validWords) ==> forall i | hi <= i < |validWords| :: StrLt(word, validWords[i])
      {
        var mid := (lo + hi) / 2;
        if validWords[mid] == word {
          return true;
        } else if StrLt(validWords[mid], word) {
          if Sorted(validWords) {
            forall i | 0 <= i <= mid ensures StrLt(validWords[i], word) {
              StrLeLtTrans(validWords[i], validWords[mid], word);
            }
          }
          lo := mid + 1;
        } else {
          StrLtTotal(validWords[mid], word);
          if Sorted(validWords) {
            forall i | mid <= i < |validWords| ensures StrLt(word, validWords[i]) {
              StrLtLeTrans(word, validWords[mid], validWords[i]);
            }
          }
          hi := mid;
        }
      }
      r := false;
      if Sorted(validWords) {
        forall i | 0 <= i < |validWords| ensures validWords[i] != word {
          if i < lo {
            StrLtAsymmetric(validWords[i], word);
          } else {
            StrLtAsymmetric(word, validWords[i]);
          }
        }
      }
    }
  }

  /** Why generation produced no puzzle. */
  datatype GameError =
    | NoWordOfLength(length: nat) // the dictionary has no word of the drawn length
    | AttemptsExhausted           // every walk tried got boxed in

  // ---------------------------------------------------------------------------
  // The walk grid

  /** A neighbour of `p` that the move guard admits and that holds no letter yet. */
  predicate FreeNeighbour(grid: array2<Option<char>>, p: Pos, d: Direction)
    requires grid.Length0 == grid.Length1 && InBounds(grid.Length0, p)
    reads grid
  {
    var q := Move(p, d);
    CanMove(grid.Length0, p, d) && grid[q.0, q.1] == None
  }

  /** The walk cannot go on from `p`: no neighbour is free. */
  predicate BoxedIn(grid: array2<Option<char>>, p: Pos)
    requires grid.Length0 == grid.Length1 && InBounds(grid.Length0, p)
    reads grid
  {
    forall d :: !FreeNeighbour(grid, p, d)
  }

  /** The position of a direction in the order the library tries them. */
  function DirectionIndex(d: Direction): (k: nat)
    ensures k < |SearchOrder| && SearchOrder[k] == d
  {
    match d
    case Up => 0
    case UpLeft => 1
    case UpRight => 2
    case Down => 3
    case DownLeft => 4
    case DownRight => 5
    case Left => 6
    case Right => 7
  }

  /** `output` holds, in order, exactly the moves to a free neighbour among the first
      `k` directions of the order up, up-left, up-right, down, down-left, down-right,
      left, right. */
  ghost predicate CollectedUpTo(grid: array2<Option<char>>, p: Pos, k: nat, output: seq<Direction>)
    requires grid.Length0 == grid.Length1 && InBounds(grid.Length0, p)
    reads grid
  {
    && (forall d :: d in output <==> DirectionIndex(d) < k && FreeNeighbour(grid, p, d))
    && (forall i, j | 0 <= i < j < |output| :: DirectionIndex(output[i]) < DirectionIndex(output[j]))
  }

  /** One `if` block of `calculate_valid_directions`: `d` is pushed when its guard
      admits it and the neighbour is still empty. */
  method OfferIfFree(grid: array2<Option<char>>, p: Pos, d: Direction, output: seq<Direction>)
    returns (extended: seq<Direction>)
    requires grid.Length0 == grid.Length1 && InBounds(grid.Length0, p)
    requires CollectedUpTo(grid, p, DirectionIndex(d), output)
    ensures CollectedUpTo(grid, p, DirectionIndex(d) + 1, extended)
  {
    var q := Move(p, d);
    if CanMove(grid.Length0, p, d) && grid[q.0, q.1] == None {
      extended := output + [d];
    } else {
      extended := output;
    }
  }

  /** All eight directions considered: exactly the free moves, each once, in order. */
  lemma CollectedAll(grid: array2<Option<char>>, p: Pos, output: seq<Direction>)
    requires grid.Length0 == grid.Length1 && InBounds(grid.Length0, p)
    requires CollectedUpTo(grid, p, 8, output)
    ensures forall d :: d in output <==> FreeNeighbour(grid, p, d)
    ensures forall i, j | 0 <= i < j < |output| :: DirectionIndex(output[i]) < DirectionIndex(output[j])
  {
  }

  /** `calculate_valid_directions`: the moves from `p` to an empty cell, collected in the
      fixed order up, up-left, up-right, down, down-left, down-right, left, right. Each
      such move is offered once, and no other. */
  method ValidDirections(grid: array2<Option<char>>, p: Pos) returns (output: seq<Direction>)
    requires grid.Length0 == grid.Length1 && InBounds(grid.Length0, p)
    ensures forall d :: d in output <==> FreeNeighbour(grid, p, d)
    ensures forall i, j | 0 <= i < j < |output| :: DirectionIndex(output[i]) < DirectionIndex(output[j])
  {
    output := [];
    output := OfferIfFree(grid, p, Up, output);
    output := OfferIfFree(grid, p, UpLeft, output);
    output := OfferIfFree(grid, p, UpRight, output);
    output := OfferIfFree(grid, p, Down, output);
    output := OfferIfFree(grid, p, DownLeft, output);
    output := OfferIfFree(grid, p, DownRight, output);
    output := OfferIfFree(grid, p, Left, output);
    output := OfferIfFree(grid, p, Right, output);
    CollectedAll(grid, p, output);
  }

  /** The first `|path|` letters of `word` lie on the cells of `path`, in order; exactly
      the cells off `path` are empty, and every filled cell holds a letter of the word. */
  ghost predicate Laid(grid: array2<Option<char>>, word: string, path: seq<Pos>)
    reads grid
  {
    var n := grid.Length0;
    && grid.Length1 == n && |path| <= |word|
    && (forall i | 0 <= i < |path| :: InBounds(n, path[i]) && grid[path[i].0, path[i].1] == Some(word[i]))
    && (forall a, b | 0 <= a < n && 0 <= b < n :: grid[a, b].None? <==> (a, b) !in path)
    && (forall a, b | 0 <= a < n && 0 <= b < n :: grid[a, b].None? || grid[a, b].value in word)
  }

  /** The state of a pass after the letters before `point`: they are laid along the
      walk `path`, which goes on to the empty cell `point`. */
  ghost predicate Placing(grid: array2<Option<char>>, word: string, path: seq<Pos>, point: Pos)
    reads grid
  {
    Laid(grid, word, path) && IsWalk(grid.Length0, path + [point])
  }

  /** A pass that is boxed in: the letters so far are laid along the walk `path`, and
      its last cell has no empty neighbour. */
  ghost predicate Stuck(grid: array2<Option<char>>, word: string, path: seq<Pos>)
    reads grid
  {
    && Laid(grid, word, path) && path != [] && IsWalk(grid.Length0, path)
    && BoxedIn(grid, path[|path| - 1])
  }

  /** One turn of the placing loop: the next letter goes into the current cell, then
      the walk steps to a random empty neighbour. It stops (`moved` is false) only
      when there is none. */
  method PlaceStep(grid: array2<Option<char>>, word: string, k: nat, ghost path: seq<Pos>, point: Pos)
    returns (moved: bool, next: Pos)
    requires Placing(grid, word, path, point) && |path| == k < |word|
    modifies grid
    ensures moved ==> Placing(grid, word, path + [point], next)
    ensures !moved ==> Stuck(grid, word, path + [point])
    ensures forall a, b | 0 <= a < grid.Length0 && 0 <= b < grid.Length1 ::
      grid[a, b].None? || grid[a, b].value in word
  {
    var n := grid.Length0;
    assert (path + [point])[k] == point;
    grid[point.0, point.1] := Some(word[k]);
    var directions := ValidDirections(grid, point);
    if directions == [] {
      return false, point;
    }
    assert directions[0] in directions;
    var d :| d in directions;
    next := Move(point, d);
    CanMoveIff(n, point, d);
    WalkSnoc(n, path + [point], next);
    moved := true;
  }

  /** One pass of the `'outer` loop: an empty `size`×`size` grid, a random start cell,
      then each letter of `word` written into the current cell before stepping to a
      random empty neighbour. The pass is abandoned (`placed` is false) as soon as the
      walk is boxed in, which can happen after the last letter too, since a step is
      taken after every letter. The letters written lie along a self-avoiding walk
      `path` and every other cell is empty. When the word is placed, the cell `last`
      the walk stepped to is still empty; otherwise the walk's last cell has no empty
      neighbour. */
  method PlaceWord(word: string, size: nat) returns (grid: array2<Option<char>>, placed: bool, ghost path: seq<Pos>, ghost last: Pos)
    requires size > 0
    ensures fresh(grid) && grid.Length0 == size && grid.Length1 == size
    ensures |path| <= |word| && forall i | 0 <= i < |path| ::
      InBounds(size, path[i]) && grid[path[i].0, path[i].1] == Some(word[i])
    ensures forall a, b | 0 <= a < size && 0 <= b < size :: grid[a, b].None? <==> (a, b) !in path
    ensures forall a, b | 0 <= a < size && 0 <= b < size :: grid[a, b].None? || grid[a, b].value in word
    ensures placed ==> |path| == |word| && IsWalk(size, path + [last])
    ensures placed ==> InBounds(size, last) && grid[last.0, last.1].None?
    ensures !placed ==> path != [] && IsWalk(size, path)
    ensures !placed ==> BoxedIn(grid, path[|path| - 1])
  {
    grid := new Option<char>[size, size]((_, _) => None);
    var y :| 0 <= y < size;
    var x :| 0 <= x < size;
    var point := (y, x);
    path := [];
    last := point;
    for k := 0 to |word|
      invariant |path| == k && Placing(grid, word, path, point)
    {
      var moved, next := PlaceStep(grid, word, k, path, point);
      if !moved {
        path := path + [point];
        placed := false;
        return;
      }
      path := path + [point];
      point := next;
    }
    placed := true;
    last := point;
    assert (path + [last])[|path|] == last;
    forall i | 0 <= i < |path| ensures path[i] != last {
      assert (path + [last])[i] == path[i];
    }
  }

  /** Every neighbour of `p` that the guards admit already lies on `wk`. */
  ghost predicate Enclosed(size: nat, wk: seq<Pos>, p: Pos) {
    forall d :: CanMove(size, p, d) ==> Move(p, d) in wk
  }

  /** A walk a pass of the `'outer` loop gave up on: a self-avoiding walk that carried
      the first `|wk|` letters of `word`, with every neighbour of its last cell already
      on it. */
  ghost predicate Abandoned(size: nat, word: string, wk: seq<Pos>) {
    0 < |wk| <= |word| && IsWalk(size, wk) && Enclosed(size, wk, wk[|wk| - 1])
  }

  /** When exactly the cells off the walk are empty and none next to its last cell is,
      the walk is enclosed: the pass had nowhere left to go. */
  lemma BoxedInAbandoned(grid: array2<Option<char>>, word: string, path: seq<Pos>)
    requires grid.Length0 == grid.Length1
    requires 0 < |path| <= |word| && IsWalk(grid.Length0, path)
    requires forall a, b | 0 <= a < grid.Length0 && 0 <= b < grid.Length0 ::
      grid[a, b].None? <==> (a, b) !in path
    requires BoxedIn(grid, path[|path| - 1])
    ensures Abandoned(grid.Length0, word, path)
  {
    var n, p := grid.Length0, path[|path| - 1];
    forall d | CanMove(n, p, d) ensures Move(p, d) in path {
      CanMoveIff(n, p, d);
      assert !FreeNeighbour(grid, p, d);
    }
  }

  /** A walk extended by an adjacent cell it has not visited is still a walk. */
  lemma WalkSnoc(n: int, path: seq<Pos>, q: Pos)
    requires IsWalk(n, path) && path != [] && InBounds(n, q)
    requires Adjacent(path[|path| - 1], q) && q !in path
    ensures IsWalk(n, path + [q])
  {
  }

  /** `for c in grid.iter_mut().flatten()`: every empty cell gets a random letter; the
      letters of the walk stay. */
  method FillEmpty(grid: array2<Option<char>>)
    modifies grid
    ensures forall y, x | 0 <= y < grid.Length0 && 0 <= x < grid.Length1 ::
      && grid[y, x].Some?
      && (old(grid[y, x]).Some? ==> grid[y, x] == old(grid[y, x]))
      && IsLowerAscii(grid[y, x].value) == (old(grid[y, x]).None? || IsLowerAscii(old(grid[y, x]).value))
  {
    for y := 0 to grid.Length0
      invariant forall a, b | 0 <= a < grid.Length0 && 0 <= b < grid.Length1 ::
        if a < y then
          && grid[a, b].Some?
          && (old(grid[a, b]).Some? ==> grid[a, b] == old(grid[a, b]))
          && IsLowerAscii(grid[a, b].value) == (old(grid[a, b]).None? || IsLowerAscii(old(grid[a, b]).value))
        else grid[a, b] == old(grid[a, b])
    {
      for x := 0 to grid.Length1
        invariant forall a, b | 0 <= a < grid.Length0 && 0 <= b < grid.Length1 ::
          if a < y || (a == y && b < x) then
            && grid[a, b].Some?
            && (old(grid[a, b]).Some? ==> grid[a, b] == old(grid[a, b]))
            && IsLowerAscii(grid[a, b].value) == (old(grid[a, b]).None? || IsLowerAscii(old(grid[a, b]).value))
          else grid[a, b] == old(grid[a, b])
      {
        if grid[y, x] == None {
          var c := RandomLetter();
          grid[y, x] := Some(c);
        }
      }
    }
  }

  /** The `unwrap` of every cell once all are filled: the letters row by row. */
  function Unwrapped(grid: array2<Option<char>>): (g: Grid)
    requires grid.Length0 == grid.Length1
    requires forall y, x | 0 <= y < grid.Length0 && 0 <= x < grid.Length1 :: grid[y, x].Some?
    reads grid
    ensures |g| == grid.Length0 && IsSquare(g)
    ensures forall y, x | 0 <= y < |g| && 0 <= x < |g| :: grid[y, x] == Some(g[y][x])
  {
    seq(grid.Length0, y requires 0 <= y < grid.Length0 && forall x | 0 <= x < grid.Length1 :: grid[y, x].Some? reads grid =>
      seq(grid.Length1, x requires 0 <= x < grid.Length1 && grid[y, x].Some? reads grid => grid[y, x].value))
  }

  // ---------------------------------------------------------------------------
  // Generation

  /** What a generated puzzle of side `size` satisfies: a square grid of lower-case
      letters, the word list is exactly the dictionary words traceable on it in
      dictionary order, and one of them is a word of the drawn length, between
      2·size and 3·size − 1 letters. */
  ghost predicate GeneratedFrom(game: Game, size: nat, dict: seq<string>) {
    && |game.grid| == size && IsSquare(game.grid)
    && (forall y, x | 0 <= y < size && 0 <= x < size :: IsLowerAscii(game.grid[y][x]))
    && game.validWords == Filtered(dict, TraceableOn(game.grid))
    && exists w :: w in game.validWords && 2 * size <= |w| < 3 * size
  }

  /** A walk through 2·size letters and one more cell does not fit on a board of side
      one or two. */
  lemma {:induction false} SmallBoardsTooSmall(size: nat, cells: nat)
    requires 2 * size + 1 <= cells <= size * size
    ensures size >= 3
  {
  }

  /** `Game::new`: draws a length in [2·size, 3·size), a dictionary word of that length,
      walks it into an empty grid (starting afresh whenever the walk is boxed in),
      fills the other cells from the letter pool, and lists the words found on the
      grid. A puzzle is only ever produced for a side of at least 3: on smaller boards
      the walk cannot fit, and the library would retry forever. The model gives up
      after `maxAttempts` retries; `target` is the drawn word and `abandoned` the walks
      of the passes given up on. */
  method NewGame(size: nat, dict: seq<string>, maxAttempts: nat)
    returns (r: Result<Game, GameError>, ghost target: string, ghost abandoned: seq<seq<Pos>>)
    requires size > 0 && IsDictionary(dict)
    ensures r.Success? ==> GeneratedFrom(r.value, size, dict) && size >= 3
    ensures r.Failure? && r.error.NoWordOfLength? ==>
      2 * size <= r.error.length < 3 * size && forall w | w in dict :: |w| != r.error.length
    ensures r.Failure? && r.error.AttemptsExhausted? ==>
      && target in dict && 2 * size <= |target| < 3 * size
      && |abandoned| == maxAttempts + 1
      && forall wk | wk in abandoned :: Abandoned(size, target, wk)
  {
    target, abandoned := [], [];
    var targetWordSize :| 2 * size <= targetWordSize < 3 * size;
    var targetWord := RandomNLengthWord(dict, targetWordSize);
    if targetWord.None? {
      r := Failure(NoWordOfLength(targetWordSize));
      return;
    }
    var word := targetWord.value;
    target := word;
    var grid, placed;
    ghost var path, last;
    grid, placed, path, last, abandoned := PlaceWithRestarts(word, size, maxAttempts);
    if !placed {
      r := Failure(AttemptsExhausted);
      return;
    }
    var game := FinishGame(word, size, grid, path, last, dict);
    r := Success(game);
  }

  /** One pass, as the restart loop sees it: a placed word, or a walk given up on. */
  method Pass(word: string, size: nat)
    returns (grid: array2<Option<char>>, placed: bool, ghost path: seq<Pos>, ghost last: Pos)
    requires size > 0
    ensures fresh(grid) && grid.Length0 == size && grid.Length1 == size
    ensures placed ==> |path| == |word| && IsWalk(size, path + [last])
    ensures placed ==> forall i | 0 <= i < |path| ::
      InBounds(size, path[i]) && grid[path[i].0, path[i].1] == Some(word[i])
    ensures forall a, b | 0 <= a < size && 0 <= b < size :: grid[a, b].None? || grid[a, b].value in word
    ensures !placed ==> Abandoned(size, word, path)
  {
    grid, placed, path, last := PlaceWord(word, size);
    if !placed {
      BoxedInAbandoned(grid, word, path);
    }
  }

  /** The `'outer` loop: passes of `PlaceWord` until one places the word, at most
      `maxAttempts + 1` of them. `abandoned` holds the walks of the passes given up on;
      when no pass succeeds there are `maxAttempts + 1` of them. */
  method PlaceWithRestarts(word: string, size: nat, maxAttempts: nat)
    returns (grid: array2<Option<char>>, placed: bool, ghost path: seq<Pos>, ghost last: Pos,
             ghost abandoned: seq<seq<Pos>>)
    requires size > 0
    ensures fresh(grid) && grid.Length0 == size && grid.Length1 == size
    ensures placed ==> |path| == |word| && IsWalk(size, path + [last])
    ensures placed ==> forall i | 0 <= i < |path| ::
      InBounds(size, path[i]) && grid[path[i].0, path[i].1] == Some(word[i])
    ensures forall a, b | 0 <= a < size && 0 <= b < size :: grid[a, b].None? || grid[a, b].value in word
    ensures !placed ==> |abandoned| == maxAttempts + 1
    ensures forall wk | wk in abandoned :: Abandoned(size, word, wk)
  {
    abandoned := [];
    grid, placed, path, last := Pass(word, size);
    var attempts := 0;
    while !placed
      invariant 0 <= attempts <= maxAttempts && |abandoned| == attempts
      invariant forall wk | wk in abandoned :: Abandoned(size, word, wk)
      invariant !placed ==> Abandoned(size, word, path)
      invariant fresh(grid) && grid.Length0 == size && grid.Length1 == size
      invariant placed ==> |path| == |word| && IsWalk(size, path + [last])
      invariant placed ==> forall i | 0 <= i < |path| ::
        InBounds(size, path[i]) && grid[path[i].0, path[i].1] == Some(word[i])
      invariant forall a, b | 0 <= a < size && 0 <= b < size :: grid[a, b].None? || grid[a, b].value in word
      decreases maxAttempts - attempts
    {
      abandoned := abandoned + [path];
      if attempts == maxAttempts {
        return;
      }
      attempts := attempts + 1;
      grid, placed, path, last := Pass(word, size);
    }
  }

  /** The end of `Game::new` once the walk is placed: fill the empty cells, unwrap the
      grid, and list the words found on it. */
  method FinishGame(word: string, size: nat, grid: array2<Option<char>>, ghost path: seq<Pos>, ghost last: Pos, dict: seq<string>)
    returns (game: Game)
    requires IsWord(word) && word in dict && 2 * size <= |word| < 3 * size && IsDictionary(dict)
    requires grid.Length0 == size && grid.Length1 == size
    requires |path| == |word| && IsWalk(size, path + [last])
    requires forall i | 0 <= i < |path| ::
      InBounds(size, path[i]) && grid[path[i].0, path[i].1] == Some(word[i])
    requires forall a, b | 0 <= a < size && 0 <= b < size :: grid[a, b].None? || grid[a, b].value in word
    modifies grid
    ensures GeneratedFrom(game, size, dict) && size >= 3
  {
    WalkWithinBoard(size, path + [last]);
    SmallBoardsTooSmall(size, |path| + 1);
    FillEmpty(grid);
    var g := Unwrapped(grid);
    assert Spells(g, path, word);
    assert IsWalk(size, path) by {
      assert path == (path + [last])[..|path|];
      WalkPrefix(size, path + [last], |path|);
    }
    assert Traceable(g, word);
    forall y, x | 0 <= y < size && 0 <= x < size ensures HasSlot(g[y][x]) {
      SlotOfLower(g[y][x]);
    }
    var validWords := GenerateWordlistFromGame(g, dict);
    game := Game(g, validWords);
  }

  lemma WalkPrefix(n: int, path: seq<Pos>, k: nat)
    requires IsWalk(n, path) && k <= |path|
    ensures IsWalk(n, path[..k])
  {
  }

  /** `Game::default`: a 5×5 puzzle. */
  method DefaultGame(dict: seq<string>, maxAttempts: nat)
    returns (r: Result<Game, GameError>, ghost target: string, ghost abandoned: seq<seq<Pos>>)
    requires IsDictionary(dict)
    ensures r.Success? ==> GeneratedFrom(r.value, 5, dict)
    ensures r.Failure? && r.error.NoWordOfLength? ==>
      10 <= r.error.length < 15 && forall w | w in dict :: |w| != r.error.length
    ensures r.Failure? && r.error.AttemptsExhausted? ==>
      && target in dict && 10 <= |target| < 15
      && |abandoned| == maxAttempts + 1
      && forall wk | wk in abandoned :: Abandoned(5, target, wk)
  {
    r, target, abandoned := NewGame(5, dict, maxAttempts);
  }

  /** A generated puzzle lists the hidden word, and keeps the dictionary's order, so on
      a sorted dictionary `Validate` answers exactly membership in the list. */
  lemma GeneratedListSorted(game: Game, size: nat, dict: seq<string>)
    requires GeneratedFrom(game, size, dict) && Sorted(dict)
    ensures Sorted(game.validWords) && |game.validWords| > 0
  {
    FilteredSorted(dict, TraceableOn(game.grid));
  }

  /** The library's fixed word list for `validate` is in order, so each of its four words
      validates. */
  lemma FixedWordListSorted()
    ensures Sorted(["bar", "baz", "foo", "qux"])
  {
    assert StrLt("bar", "baz") by {
      assert StrLt("r", "z");
    }
  }

  /** The `wordlist_validation` test on the fixed list: `validate` accepts each of the
      four words, and it rejects a word that is not listed. */
  method WordlistValidation() returns (accepted: seq<bool>)
    ensures accepted == [true, true, true, true, false]
  {
    var game := Game([[]], ["bar", "baz", "foo", "qux"]);
    FixedWordListSorted();
    var foo := game.Validate("foo");
    var bar := game.Validate("bar");
    var baz := game.Validate("baz");
    var qux := game.Validate("qux");
    var quux := game.Validate("quux");
    accepted := [foo, bar, baz, qux, quux];
  }
}
