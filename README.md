# wordtwist puzzle engine in Dafny

wordtwist is a word-search game. A puzzle is a square grid of letters that hides one
long dictionary word along a path of 8-adjacent, pairwise distinct cells. It comes
with the list of every dictionary word that can be traced on the grid, and guesses are
checked against that list. This project models the engine in two generations:

- **The current library** (`server/wordtwist`):
  - `Words` (`words.dfy`) is the word finder. It covers the letter histogram
    `count_chars`, the count-based dictionary pre-filter, the depth-first search with
    a visited mask that it sets and clears in place, and the word-list builder.
  - `Games` (`games.dfy`) is the grid generator. It covers `calculate_valid_directions`,
    the self-avoiding random walk with restarts, the fill loop, `Game::new`,
    `Default` and the binary-search `validate`.
- **The earlier prototype** (`src`):
  - `ProtoWords` (`proto_words.dfy`) is the prototype word finder. Its neighbour
    guards use `N - 2`, its pre-filter is set-based, and its search never unmarks a
    cell.
  - `ProtoGames` (`proto_games.dfy`) is the prototype generator. Its grid uses a
    `'0'` sentinel for empty cells, its moves have the same `N - 2` guards, and its
    word list is the placeholder `["todo"]`.

Shared foundations:

- `Board` (`board.dfy`) holds grid geometry and the reference definition that every
  search is proved against. `TraceableFrom(g, w, p, blocked)` holds when some
  self-avoiding walk continues from `p`, spells `w` and avoids `blocked`.
  `Traceable(g, w)` holds when some self-avoiding walk spells `w`.
- `Seqs` (`seqs.dfy`) holds order-keeping filtering and Rust's string order.
- `Wrappers` (`wrappers.dfy`) holds `Option` and `Result`.

The state the source changes in place is modelled on arrays:

- the `[usize; 26]` histogram is an `array<nat>`;
- the visited masks are `array2<bool>`;
- the walk grids are an `array2<Option<char>>` and, for the prototype, an
  `array2<char>`.

Every method is proved against a function or predicate on values, for example:

- the current search returns true exactly when `TraceableFrom` holds;
- when the current search fails, it leaves the mask as it found it, except that
  `(y, x)` is now clear (the source clears it on the way out, whatever its state on
  entry);
- the prototype search returns and marks exactly what the function `ProtoSearch`
  computes when it threads the mask through the eight tries.

The dictionary (`WORDS`) is a parameter: a sequence of non-empty lower-case ASCII
words (`IsDictionary`). Random draws are nondeterministic choices among the values the
source could draw.

## Model

| member | source | states |
|---|---|---|
| Words.AllNLengthWords | server/wordtwist/src/words.rs:17-26 | the result is the dictionary words with exactly `n` characters, in dictionary order and with repetitions: a word is listed iff it is in the dictionary and has length `n`; a sorted dictionary gives a sorted result; the prototype's `get_all_n_length_words` (src/words.rs lines 24 to 33) is the same code |
| Words.RandomWord | server/wordtwist/src/words.rs:29-31 | no word exactly when the list is empty; otherwise a word from the list; the prototype's `get_random_word` (src/words.rs lines 36 to 38) is the same code |
| Words.RandomNLengthWord | server/wordtwist/src/words.rs:44-48 | a dictionary word of length `n`; no word (the `expect` failure) exactly when no dictionary word has length `n`; the prototype's `get_random_n_length_word` (src/words.rs lines 46 to 50) is the same code |
| Words.RandomLetter | server/wordtwist/src/words.rs:36-41 | the letter drawn is a lower-case ASCII letter from the pool |
| Words.LetterPoolWeights | server/wordtwist/src/words.rs:33-41 | the pool holds each vowel twice, each consonant once, and nothing else |
| Words.AlphabetOnce | server/wordtwist/src/words.rs:37 | `'a'..='z'` holds each lower-case letter exactly once and nothing else |
| Words.CountChars | server/wordtwist/src/words.rs:52-58 | the array loop yields the histogram `LetterCounts(word)`: slot `i` counts the characters `c` with `(c as u8) - b'a' == i` |
| Words.Slot | server/wordtwist/src/words.rs:55 | the counter index `(char as u8 - b'a')`: the character code's low byte minus 97 (no contract; `Words.SlotOfLower` states that a lower-case letter gets its alphabet position) |
| Words.LetterCounts | server/wordtwist/src/words.rs:52-58 | the histogram has 26 slots |
| Words.LetterCountsOfLower | server/wordtwist/src/words.rs:52-58 | for a lower-case letter `c`, slot `c - 'a'` is the number of occurrences of `c` |
| Words.LetterCountsTotal | server/wordtwist/src/words.rs:52-58 | for a word the histogram can count, the slots add up to the word's length |
| Words.CountCharsBoot | server/wordtwist/src/words.rs:224-230 | "boot" gives b = 1, o = 2, a = 0 |
| Words.FilterWordsByCharacter | server/wordtwist/src/words.rs:64-80 | a dictionary word is kept iff each of its letter counts is at most the count in `characters`; dictionary order is kept |
| Words.Fits | server/wordtwist/src/words.rs:66-73 | the closure's test: each of the 26 counts of the word is at most the count in `characters` (no contract; `Words.FitsIffSubMultiset` relates it to multisets) |
| Words.FitsIffSubMultiset | server/wordtwist/src/words.rs:64-80 | for lower-case strings, the count test holds iff the word's letters are a sub-multiset of the characters |
| Words.FilterBos | server/wordtwist/src/words.rs:233-238 | on the characters "bos", "sob" is kept and "boss" is dropped |
| Words.TraceableFits | server/wordtwist/src/words.rs:64-80 | every word traceable on a square grid passes the count filter on the grid's letters, because a self-avoiding walk uses each cell at most once |
| Words.SearchForWord | server/wordtwist/src/words.rs:85-169 | returns true iff the rest of the word can be traced onward from `(y, x)` avoiding the cells marked on entry; on success `(y, x)` and the entry marks are marked; on failure the mask is its entry state with `(y, x)` cleared |
| Words.TryMove | server/wordtwist/src/words.rs:99-166 | one guarded step: succeeds exactly when the guard admits the move, the neighbour holds the next letter, is unmarked, and the rest can be traced from it |
| Board.CanMove | server/wordtwist/src/words.rs:99-166 | the current guards, also those of `calculate_valid_directions` (server/wordtwist/src/game.rs lines 42 to 63): `> 0` for a step down a coordinate, `< N - 1` for a step up (no contract; `Board.CanMoveIff` states that they admit exactly the moves that stay on the board) |
| Words.TraceNeedsStep | server/wordtwist/src/words.rs:99-166 | every traceable continuation begins with one of the eight steps the search tries, so trying all eight in turn loses nothing |
| Words.StepTraces | server/wordtwist/src/words.rs:99-166 | a successful step is a traceable continuation |
| Words.SearchFromEveryCell | server/wordtwist/src/words.rs:177-189 | scanning the start cells that hold the first letter, with a fresh mask for each, finds the word iff it is traceable |
| Words.TraceableHasStart | server/wordtwist/src/words.rs:177-189 | a traceable word has a start cell holding its first letter from which the rest can be traced |
| Words.GenerateWordlistFromGame | server/wordtwist/src/words.rs:171-191 | the result is the dictionary words traceable on the grid, each pushed once, in dictionary order: the pre-filter loses no traceable word |
| Words.Scan | server/wordtwist/src/words.rs:176-189 | the `'words` loop keeps, in order, exactly the candidates some start cell traces, each once |
| Words.FlattenCountable | server/wordtwist/src/words.rs:171 | the grid's letters, joined row by row, are all letters the histogram can count |
| Games.Game.Validate | server/wordtwist/src/game.rs:125-127 | `true` only for a listed word; on a sorted list, `true` iff the word is listed; no case folding |
| Games.FixedWordListSorted | server/wordtwist/src/game.rs:141-154 | the test's fixed list is sorted, so `Validate` accepts each of its four words |
| Games.WordlistValidation | server/wordtwist/src/game.rs:141-154 | on the test's fixed list, `validate` accepts "foo", "bar", "baz" and "qux" and rejects the unlisted "quux" |
| Games.GeneratedListSorted | server/wordtwist/src/game.rs:156-158 | a generated word list from a sorted dictionary is sorted and non-empty, so `Validate` accepts each listed word |
| Games.ValidDirections | server/wordtwist/src/game.rs:35-67 | the directions whose move stays on the board and reaches a `None` cell, each once, in the order up, up-left, up-right, down, down-left, down-right, left, right |
| Games.OfferIfFree | server/wordtwist/src/game.rs:42-64 | one `if` block extends the collected directions by `d` exactly when its guard admits it and the cell is empty |
| Games.CollectedAll | server/wordtwist/src/game.rs:35-67 | after the eight blocks, the directions are exactly the free moves, in order |
| Games.DirectionIndex | server/wordtwist/src/game.rs:42-64 | each direction's position in the fixed order |
| Games.PlaceWord | server/wordtwist/src/game.rs:76-97 | the letters written lie, in order, along a self-avoiding walk on the size×size grid; exactly the cells off the walk are `None`, and no cell holds a letter outside the word. When the pass completes, the whole word is written and the cell stepped to after the last letter is in bounds and still `None`; when it is abandoned (`continue 'outer`), the walk's last cell has no free neighbour |
| Games.BoxedInAbandoned | server/wordtwist/src/game.rs:83-86 | a pass that `continue 'outer` abandons (no free neighbour, cells off the walk empty) leaves a walk of at most the word's length with every admitted neighbour of its last cell on it |
| Games.Pass | server/wordtwist/src/game.rs:76-97 | one pass of the `'outer` loop either places the word along a walk or leaves an abandoned walk |
| Games.PlaceWithRestarts | server/wordtwist/src/game.rs:76-98 | the `'outer` loop, bounded: a placed word along a self-avoiding walk with the letters in order, or `maxAttempts + 1` abandoned walks of the word |
| Games.PlaceStep | server/wordtwist/src/game.rs:83-95 | one turn of the loop writes the next letter into the current cell; if it moves, the next cell is an empty neighbour that extends the self-avoiding walk; it stops only when the current cell has no free neighbour. Either way the letters so far lie along the walk, exactly the cells off it are empty, and no cell holds a letter outside the word |
| Games.WalkSnoc | server/wordtwist/src/game.rs:83-95 | stepping to an adjacent, unvisited, in-bounds cell keeps the walk self-avoiding |
| Games.FillEmpty | server/wordtwist/src/game.rs:100-104 | afterwards every cell is `Some`; cells written by the walk keep their letters; a cell is lower-case iff it was empty or already lower-case |
| Games.Unwrapped | server/wordtwist/src/game.rs:106-109 | on a fully filled grid, the `unwrap`s cannot fail and give a square grid with the same letters |
| Games.SmallBoardsTooSmall | server/wordtwist/src/game.rs:69-97 | a walk of at least 2·size + 1 cells fits only on a board of side at least 3 |
| Games.FinishGame | server/wordtwist/src/game.rs:100-114 | filling, unwrapping and listing a placed walk gives a puzzle that satisfies everything `NewGame` promises, on a board of side at least 3 |
| Games.NewGame | server/wordtwist/src/game.rs:34-115 | on success, a size×size grid of lower-case letters whose word list is exactly the traceable dictionary words, in order, and holds a word of 2·size to 3·size − 1 letters; it fails with `NoWordOfLength` only for a length in that range that no dictionary word has; it fails with `AttemptsExhausted` only after `maxAttempts + 1` passes for one dictionary word of that range were each abandoned on a self-avoiding walk whose last cell has every admitted neighbour already on the walk |
| Games.DefaultGame | server/wordtwist/src/game.rs:26-30 | `Game::default` is `Game::new(5)`: the same guarantees with side 5 and a hidden word of 10 to 14 letters, including the abandoned walks behind `AttemptsExhausted` |
| ProtoWords.ProtoRandomLetter | src/words.rs:41-43 | a lower-case letter from the plain alphabet |
| ProtoWords.ProtoLetterPoolUniform | src/words.rs:41-43 | the prototype's pool holds each lower-case letter once, and the current pool holds more of a letter than it exactly when the letter is a vowel: the prototype has no vowel weighting |
| ProtoWords.SortChars | src/words.rs:157 | `sort`: a permutation of the letters, in non-decreasing order |
| ProtoWords.Dedup | src/words.rs:158 | `dedup`: the same letters; a sorted input gives a strictly increasing result |
| ProtoWords.GridLetterSet | src/words.rs:156-158 | the letters passed to the filter are exactly the grid's letters, each once, in increasing order |
| ProtoWords.ProtoFilterWordsByCharacter | src/words.rs:57-67 | a dictionary word is kept iff each of its characters occurs among the letters; dictionary order is kept |
| ProtoWords.AllIn | src/words.rs:61 | the closure's test: every character of the word occurs among the letters (no contract; `ProtoWords.CountFilterStricter` compares it with the count test) |
| ProtoWords.CountFilterStricter | src/words.rs:57-67 | every word that passes the current count filter passes the prototype's set filter |
| ProtoWords.ProtoFilterKeepsBoss | src/words.rs:57-67 | with the letters "bos", the prototype keeps "boss", although its two `s` fail the current library's count test, which therefore drops it |
| ProtoWords.ProtoCanMoveBounds | src/words.rs:86-151 | every move the `N - 2` guards admit stays on the board and is admitted by the current guards; a move that adds one never reaches index `N - 1` |
| ProtoWords.ProtoCanMove | src/words.rs:86-151 | the prototype's guards, also those of its `calculate_valid_directions` (src/game.rs lines 33 to 54): `< N - 2` for a step up a coordinate (no contract; `ProtoWords.ProtoCanMoveBounds` states what they admit) |
| ProtoWords.ProtoSearchForWord | src/words.rs:72-154 | returns and marks exactly what `ProtoSearch` computes, threading the mask through the eight tries without ever clearing a mark |
| ProtoWords.ProtoSearch | src/words.rs:72-154 | the prototype search as a function: mark `(y, x)`, answer true on an empty rest, otherwise the eight tries on the marks so far (no contract; the method `ProtoSearchForWord` is proved equal to it, and `ProtoSearchGrows`, `ProtoSearchSound` state its properties) |
| ProtoWords.ProtoTry | src/words.rs:86-153 | the `if` blocks in order, each on the marks the previous ones left, until one answers true; false after the last (no contract; `ProtoTryGrows`, `ProtoTrySound` state its properties) |
| ProtoWords.ProtoAttempt | src/words.rs:86-151 | one `if` block: guard, letter, unmarked, then the recursive search (no contract; `ProtoTryMove` is proved equal to it) |
| ProtoWords.ProtoTryFrom | src/words.rs:86-153 | the `if` blocks from the `k`-th on, each run only when the ones before it did not return true: the result and the marks are what `ProtoTry` computes on the remaining directions |
| ProtoWords.ProtoTryMove | src/words.rs:85-151 | one guarded step of the prototype search, as `ProtoAttempt` computes it |
| ProtoWords.ProtoSearchGrows | src/words.rs:78 | the mask only grows, and `(y, x)` is marked on return |
| ProtoWords.ProtoTryGrows | src/words.rs:85-153 | the tries never clear a mark |
| ProtoWords.ProtoSearchSound | src/words.rs:72-154 | a successful prototype search has traced the rest of the word from `(y, x)` avoiding the marks on entry |
| ProtoWords.ProtoTrySound | src/words.rs:85-153 | a successful try among the remaining directions traces the word, even on the marks earlier failed tries left |
| ProtoWords.ProtoTryUnfold | src/words.rs:85-153 | the directions are tried in the fixed order, each on the marks the previous tries left |
| ProtoWords.ProtoSearchFromEveryCell | src/words.rs:163-177 | the start-cell scan with a fresh mask per cell succeeds iff some cell holding the first letter starts a successful search |
| ProtoWords.ProtoScan | src/words.rs:163-177 | the `'words` loop keeps, in order, the candidates the scan finds, each once |
| ProtoWords.ProtoGenerateWordlistFromGame | src/words.rs:70-179 | the result is the dictionary words the search finds, in dictionary order; each of them is traceable |
| ProtoWords.ProtoFoundPassesFilter | src/words.rs:156-160 | every word the search can find passes the set pre-filter on the grid's letters |
| ProtoWords.ProtoFoundTraceable | src/words.rs:163-177 | a word the prototype finds is traceable |
| ProtoWords.ProtoListTraceable | src/words.rs:163-177 | every word on the prototype's list is in the dictionary and traceable |
| ProtoWords.TraceableLettersOnGrid | src/words.rs:156 | every letter of a traceable word occurs among the grid's letters |
| ProtoWords.ProtoWordlistWithinCurrent | src/words.rs:70-179 | the prototype's list is contained in the current library's list for the same grid and dictionary |
| ProtoWords.ProtoTrySkipAt | src/words.rs:86-151 | a direction whose guard, letter or mask test fails is passed over and leaves the marks unchanged |
| ProtoWords.ProtoTryDescend | src/words.rs:86-151 | a direction whose recursive search fails hands the marks that search left to the directions after it |
| ProtoWords.ProtoTryExhausted | src/words.rs:153 | after the eighth direction the search answers false and keeps its marks |
| ProtoWords.ProtoCornerStuck | src/words.rs:86-151 | on a 2×2 board every guard fails at the top-left cell, so a search from there fails whatever the word |
| ProtoWords.TopRowOneA | src/words.rs:166-168 | on the 2×2 grid "ab"/"cd" the only start cell for "ab" is the top-left one |
| ProtoWords.ProtoMissesTopRow | src/words.rs:146 | on the 2×2 grid "ab"/"cd", "ab" is traceable but the prototype does not find it |
| ProtoWords.ProtoMissesAfterBacktrack | src/words.rs:78-153 | on a 4×4 grid, "abxcb" is traceable but the prototype does not find it, because a failed branch leaves its marks behind |
| ProtoWords.PoisonFromA | src/words.rs:86-153 | on any 4×4 board whose top-left 3×3 corner reads "cbz"/"xaz"/"zbz", the search for "bxcb" from the `a` fails: the up branch fails and leaves marks, and the down branch then fails on them |
| ProtoWords.PoisonFromUpperB | src/words.rs:86-153 | from the upper `b`, the branch through `x` and `c` fails and leaves (0,1), (1,0) and (0,0) marked |
| ProtoWords.PoisonFromLowerB | src/words.rs:86-153 | from the lower `b`, the `x` it needs is already marked, so the branch fails |
| ProtoWords.PoisonTraceable | src/words.rs:163-177 | on such a board, "abxcb" is traceable along (1,1), (2,1), (1,0), (0,0), (0,1) |
| ProtoWords.PoisonGridOneA | src/words.rs:166-168 | the 4×4 grid has its only `a` at (1,1), so that is the only start cell tried |
| ProtoGames.ProtoValidDirections | src/game.rs:27-58 | the directions whose `N - 2`-guarded move reaches a `'0'` cell, each once, in the fixed order |
| ProtoGames.ProtoOfferIfFree | src/game.rs:33-56 | one `if` block extends the collected directions by `d` exactly when its guard admits it and the cell holds `'0'` |
| ProtoGames.ProtoCollectedAll | src/game.rs:27-58 | after the eight blocks, the directions are exactly the free moves, in order |
| ProtoGames.ProtoPlaceStep | src/game.rs:74-87 | one turn of the loop writes the next letter into the current cell; if it moves, the next cell is a neighbour the guards admit, still `'0'`, that extends the self-avoiding walk; it stops only when the guards admit no free neighbour. Either way the letters so far lie along the walk, exactly the cells off it hold `'0'`, and every other cell holds a letter of the word |
| ProtoGames.ProtoPlaceWord | src/game.rs:67-90 | the letters written lie, in order, along a self-avoiding walk; exactly the cells off it hold `'0'`. When the pass completes, the whole word is written and the cell stepped to after the last letter is in bounds and still `'0'`; when it is abandoned, the guards admit no free neighbour of the walk's last cell |
| ProtoGames.ProtoBoxedInAbandoned | src/game.rs:75-78 | a pass the prototype abandons leaves a walk of at most the word's length with every neighbour its guards admit from the last cell on it |
| ProtoGames.ProtoPass | src/game.rs:67-90 | one pass of the prototype's `'outer` loop either places the word along a walk or leaves an abandoned walk |
| ProtoGames.ProtoPlaceWithRestarts | src/game.rs:67-90 | the prototype's `'outer` loop, bounded: a placed word along a self-avoiding walk, or `maxAttempts + 1` abandoned walks of the word |
| ProtoGames.ProtoFillEmpty | src/game.rs:92-96 | every `'0'` cell becomes a lower-case letter; every other cell keeps its letter |
| ProtoGames.ProtoFinishGame | src/game.rs:92-103 | filling a placed walk and attaching the placeholder list gives a puzzle that satisfies everything `NewProtoGame` promises, on a board of side at least 3 |
| ProtoGames.Rows | src/game.rs:20-23 | the N×N array read row by row |
| ProtoGames.NewProtoGame | src/game.rs:26-104 | on success, an N×N grid of lower-case letters with no `'0'` left, the word list `["todo"]`, and a dictionary word of 2N to 3N − 1 letters traceable on the grid; it fails with `NoWordOfLength` only for a length in that range that no dictionary word has, and with `AttemptsExhausted` only after `maxAttempts + 1` passes for one such word were each abandoned on a self-avoiding walk whose last cell has every neighbour the `N - 2` guards admit already on the walk |

## Left out

- Dictionary loading is not modelled: `read_words`, `include_str!`, the file read,
  `lazy_static` and `to_lowercase`. The dictionary is a parameter, and it is assumed
  to hold non-empty lower-case ASCII words.
- Randomness (`thread_rng`, `choose`) is a nondeterministic choice among the values the
  source could draw. Nothing is said about the distribution.
  `Words.LetterPoolWeights` states the pool's multiplicities instead.
- Games.NewGame: the source retries the walk without limit. The model retries at most
  `maxAttempts` more times and then fails with `AttemptsExhausted`, returning the
  abandoned walks as ghost evidence that each pass was boxed in. Their letters are
  not returned, because each pass's grid is discarded. On boards of side 1
  or 2 the source never produces a puzzle, and the model shows that no walk can fit.
- ProtoGames.NewProtoGame: bounded by `maxAttempts` in the same way. The
  `println!` of the target word is output only and is left out.
- Games.NewGame: `size = 0` is excluded by a `requires`, because there the source's
  `unwrap` on the empty range `0..0` panics.
- ProtoGames.NewProtoGame requires `N >= 2`. With N = 0 the source's `unwrap` on
  the empty range `0..0` panics, and with N = 1 the first `calculate_valid_directions`
  evaluates `N - 2` in its `down` block (src/game.rs:42), which underflows.
- ProtoWords.ProtoGenerateWordlistFromGame requires `ProtoNoUnderflow`. On a 1×1
  board the search's `down` block (src/words.rs:112) evaluates `N - 2` and
  underflows, as soon as a search from the single cell has letters left. That
  happens exactly for a candidate of two or more letters made only of that cell's
  letter. On an empty board, or with no such candidate, the model runs as the source
  does.
- Words.CountChars: requires every character to fall in one of the 26 slots. The
  source computes the slot with `char as u8 - b'a'` and panics otherwise. The model
  writes the slot as the character code modulo 256, minus 97.
- The `expect` in `get_random_n_length_word` is modelled as a `None` result and
  becomes the `NoWordOfLength` error rather than a panic.
- Games.Game.Validate is Rust's `binary_search`, modelled as a plain binary-search
  loop. Which index it probes is not modelled. On an unsorted list it is only sound.
- `validate` compares exactly and does not fold case
  (server/wordtwist/src/game.rs:126); `Games.Game.Validate` does the same.
- Nothing sorts `valid_words`. `generate_wordlist_from_game` keeps dictionary order,
  so `validate`'s `binary_search` is exact only on a sorted dictionary.
  `Games.GeneratedListSorted` states this.
- The accessors `grid()` and `valid_words()` are the datatype fields.
- Byte slicing `&word[1..]` on non-ASCII text and `to_string` copies are not
  modelled: strings are sequences of characters.
- The web server, persistence, the client and the word-list cleaning script are not
  part of this model.

## Findings

| source | as written | input that shows it | evidently intended | confidence | as-written member | corrected member |
|---|---|---|---|---|---|---|
| src/words.rs:146 | moves that add one to a coordinate are guarded by `< N - 2`, so the search never steps into the last row or column | the 2×2 grid "ab"/"cd" and the word "ab" | guards `< N - 1`, so every neighbour on the board is reachable | not executed | ProtoWords.ProtoMissesTopRow | Words.SearchFromEveryCell |
| src/words.rs:153 | a failed branch returns `false` without clearing its mark, so later branches cannot pass through cells it visited | the 4×4 grid "cbzz"/"xazz"/"zbzz"/"zzzz" and the word "abxcb" | clear `visited_squares[y][x]` before returning `false` | not executed | ProtoWords.ProtoMissesAfterBacktrack | Words.SearchForWord |
