/** The word side of the earlier prototype. It has the same shape as the current
    library on an N×N array, with three differences: the moves that add one to a
    coordinate are guarded by `< N - 2` rather than `< N - 1`; the search never clears
    a mark, not even when it backtracks; and the pre-filter only asks that every
    letter of a word occur somewhere on the grid.

    The prototype's `get_all_n_length_words`, `get_random_word` and
    `get_random_n_length_word` are the same code as the current library's and share
    its model (`Words.AllNLengthWords`, `Words.RandomWord`, `Words.RandomNLengthWord`).
    On a 1×1 board `N - 2` underflows once the search evaluates it, so the word list
    asks that no candidate get that far (`ProtoNoUnderflow`). */
module ProtoWords {
  import opened Seqs
  import opened Board
  import opened Words

  // ---------------------------------------------------------------------------
  // The letter pool

  /** `('a'..='z').choose(..)`: any lower-case letter, each equally weighted. */
  method ProtoRandomLetter() returns (c: char)
    ensures c in Alphabet && IsLowerAscii(c)
  {
    var i :| 0 <= i < |Alphabet|;
    c := Alphabet[i];
  }

  /** The prototype's pool holds every lower-case letter exactly once, so it weighs
      all letters alike; the current pool outweighs it exactly on the vowels. */
  lemma ProtoLetterPoolUniform(c: char)
    ensures IsLowerAscii(c) ==> multiset(Alphabet)[c] == 1
    ensures multiset(Alphabet)[c] < multiset(LetterPool)[c] <==> IsVowel(c)
  {
    AlphabetOnce(c);
    LetterPoolWeights(c);
  }

  // ---------------------------------------------------------------------------
  // The letter set: `letters.sort(); letters.dedup();`

  predicate CharsSorted(s: seq<char>) {
    forall i, j | 0 <= i < j < |s| :: s[i] <= s[j]
  }

  predicate CharsIncreasing(s: seq<char>) {
    forall i, j | 0 <= i < j < |s| :: s[i] < s[j]
  }

  function Insert(c: char, s: seq<char>): (r: seq<char>)
    requires CharsSorted(s)
    ensures multiset(r) == multiset(s) + multiset{c}
    ensures CharsSorted(r)
    ensures |r| > 0 && (r[0] == c || (|s| > 0 && r[0] == s[0]))
  {
    if s == [] then [c]
    else if c <= s[0] then
      ConsSorted(c, s);
      [c] + s
    else
      var t := Insert(c, s[1..]);
      InsertBehindHead(c, s, t);
      [s[0]] + t
  }

  /** A sorted sequence stays sorted under a head no larger than its first element. */
  lemma ConsSorted(c: char, s: seq<char>)
    requires CharsSorted(s) && (s == [] || c <= s[0])
    ensures CharsSorted([c] + s)
  {
  }

  /** Putting back the head of `s` in front of `c` inserted into the rest keeps order. */
  lemma InsertBehindHead(c: char, s: seq<char>, t: seq<char>)
    requires CharsSorted(s) && s != [] && s[0] < c
    requires CharsSorted(t) && multiset(t) == multiset(s[1..]) + multiset{c}
    ensures CharsSorted([s[0]] + t)
    ensures multiset([s[0]] + t) == multiset(s) + multiset{c}
  {
    assert s == [s[0]] + s[1..];
    forall j | 0 <= j < |t| ensures s[0] <= t[j] {
      assert t[j] in multiset(t);
      if t[j] != c {
        assert t[j] in multiset(s[1..]);
        assert t[j] in s[1..];
      }
    }
    ConsSorted(s[0], t);
  }

  /** `slice::sort` on the letters: a sorted permutation. */
  function SortChars(s: seq<char>): (r: seq<char>)
    ensures multiset(r) == multiset(s)
    ensures CharsSorted(r)
  {
    if s == [] then []
    else
      assert s == [s[0]] + s[1..];
      Insert(s[0], SortChars(s[1..]))
  }

  /** `Vec::dedup`: drops every element equal to the one before it. On a sorted
      sequence that leaves each value once, in increasing order. */
  function Dedup(s: seq<char>): (r: seq<char>)
    ensures forall c :: c in r <==> c in s
    ensures CharsSorted(s) ==> CharsIncreasing(r)
    ensures |s| > 0 ==> |r| > 0 && r[0] == s[0]
  {
    if |s| <= 1 then s
    else if s[0] == s[1] then
      assert s == [s[0]] + s[1..];
      Dedup(s[1..])
    else
      assert s == [s[0]] + s[1..];
      [s[0]] + Dedup(s[1..])
  }

  /** The letter set handed to the pre-filter: each letter of the grid once, in
      increasing order. */
  lemma GridLetterSet(g: Grid, c: char)
    ensures c in Dedup(SortChars(Flatten(g))) <==> c in Flatten(g)
    ensures CharsIncreasing(Dedup(SortChars(Flatten(g))))
  {
    var sorted := SortChars(Flatten(g));
    assert c in sorted <==> c in multiset(sorted);
  }

  // ---------------------------------------------------------------------------
  // The set-based pre-filter

  /** Every character of `w` occurs in `chars`, however many times `w` uses it. */
  predicate AllIn(w: string, chars: seq<char>) {
    forall k | 0 <= k < |w| :: w[k] in chars
  }

  function AllInOf(chars: seq<char>): string -> bool {
    w => AllIn(w, chars)
  }

  /** The prototype's `filter_words_by_character`: the dictionary words made only of
      characters that occur in `chars`, in dictionary order. */
  function ProtoFilterWordsByCharacter(dict: seq<string>, chars: seq<char>): (r: seq<string>)
    ensures forall w :: w in r <==> w in dict && AllIn(w, chars)
    ensures Sorted(dict) ==> Sorted(r)
  {
    if Sorted(dict) then
      FilteredSorted(dict, AllInOf(chars));
      Filtered(dict, AllInOf(chars))
    else
      Filtered(dict, AllInOf(chars))
  }

  /** The count pre-filter of the current library is the stricter one: a word whose
      counts fit uses only letters that occur. */
  lemma CountFilterStricter(w: string, chars: string)
    requires forall k | 0 <= k < |w| :: IsLowerAscii(w[k])
    requires forall k | 0 <= k < |chars| :: IsLowerAscii(chars[k])
    requires Fits(w, chars)
    ensures AllIn(w, chars)
  {
    FitsIffSubMultiset(w, chars);
    forall k | 0 <= k < |w| ensures w[k] in chars {
      assert w[k] in multiset(w);
    }
  }

  /** Repeats are ignored: on the letters "bos" the prototype keeps "boss", although its
      two `s` do not fit the counts of "bos", so the current library's count filter
      drops it. */
  lemma ProtoFilterKeepsBoss()
    ensures "boss" in ProtoFilterWordsByCharacter(["boss", "sob"], "bos")
    ensures !Fits("boss", "bos")
  {
    assert AllIn("boss", "bos") by {
      assert "bos"[0] == 'b' && "bos"[1] == 'o' && "bos"[2] == 's';
    }
    BossDoesNotFit();
  }


  // ---------------------------------------------------------------------------
  // The search

  /** The prototype's guards: a move that adds one to a coordinate needs that
      coordinate below N - 2. */
  predicate ProtoCanMove(n: int, p: Pos, d: Direction) {
    match d
    case Up => p.0 > 0
    case UpLeft => p.0 > 0 && p.1 > 0
    case UpRight => p.0 > 0 && p.1 < n - 2
    case Down => p.0 < n - 2
    case DownLeft => p.0 < n - 2 && p.1 > 0
    case DownRight => p.0 < n - 2 && p.1 < n - 2
    case Left => p.1 > 0
    case Right => p.1 < n - 2
  }

  /** Every move the prototype admits stays on the board and is one the current library
      admits too; a move that adds one to a coordinate never reaches index N - 1. */
  lemma ProtoCanMoveBounds(n: int, p: Pos, d: Direction)
    requires InBounds(n, p) && ProtoCanMove(n, p, d)
    ensures InBounds(n, Move(p, d)) && CanMove(n, p, d)
    ensures Move(p, d).0 > p.0 ==> Move(p, d).0 <= n - 2
    ensures Move(p, d).1 > p.1 ==> Move(p, d).1 <= n - 2
  {
  }

  /** What a search returns, and the marks it leaves in the mask. */
  datatype Outcome = Outcome(found: bool, marks: set<Pos>)

  /** The prototype's `search_for_word` on the marks `marked`: mark `p`, then try the
      directions in search order, each one on the marks the previous tries left. */
  ghost function ProtoSearch(g: Grid, w: string, p: Pos, marked: set<Pos>): Outcome
    requires IsSquare(g) && InBounds(|g|, p)
    decreases |w|, 2, 0
  {
    if |w| == 0 then Outcome(true, marked + {p})
    else ProtoTry(g, w, p, SearchOrder, marked + {p})
  }

  /** The tries of the directions `ds`, in order, until one succeeds. */
  ghost function ProtoTry(g: Grid, w: string, p: Pos, ds: seq<Direction>, marked: set<Pos>): Outcome
    requires IsSquare(g) && InBounds(|g|, p) && |w| > 0
    decreases |w|, 1, |ds|
  {
    if ds == [] then Outcome(false, marked)
    else
      var o := ProtoAttempt(g, w, p, ds[0], marked);
      if o.found then o else ProtoTry(g, w, p, ds[1..], o.marks)
  }

  /** One `if` block: the guard, the letter, the mask, then the search from there. */
  ghost function ProtoAttempt(g: Grid, w: string, p: Pos, d: Direction, marked: set<Pos>): Outcome
    requires IsSquare(g) && InBounds(|g|, p) && |w| > 0
    decreases |w|, 0, 0
  {
    var q := Move(p, d);
    if ProtoCanMove(|g|, p, d) && CellAt(g, q) == w[0] && q !in marked then
      ProtoCanMoveBounds(|g|, p, d);
      ProtoSearch(g, w[1..], q, marked)
    else Outcome(false, marked)
  }

  /** The marks only grow, and `p` is among them. */
  lemma {:induction false} ProtoSearchGrows(g: Grid, w: string, p: Pos, marked: set<Pos>)
    requires IsSquare(g) && InBounds(|g|, p)
    ensures marked + {p} <= ProtoSearch(g, w, p, marked).marks
    decreases |w|, 2, 0
  {
    if |w| > 0 {
      ProtoTryGrows(g, w, p, SearchOrder, marked + {p});
    }
  }

  lemma {:induction false} ProtoTryGrows(g: Grid, w: string, p: Pos, ds: seq<Direction>, marked: set<Pos>)
    requires IsSquare(g) && InBounds(|g|, p) && |w| > 0
    ensures marked <= ProtoTry(g, w, p, ds, marked).marks
    decreases |w|, 1, |ds|
  {
    if ds != [] {
      var o := ProtoAttempt(g, w, p, ds[0], marked);
      var q := Move(p, ds[0]);
      if ProtoCanMove(|g|, p, ds[0]) && CellAt(g, q) == w[0] && q !in marked {
        ProtoCanMoveBounds(|g|, p, ds[0]);
        ProtoSearchGrows(g, w[1..], q, marked);
      }
      if !o.found {
        ProtoTryGrows(g, w, p, ds[1..], o.marks);
      }
    }
  }

  /** The prototype never reports a word that is not there: a successful search has
      traced the rest of the word through cells unmarked on entry. */
  lemma {:induction false} ProtoSearchSound(g: Grid, w: string, p: Pos, marked: set<Pos>)
    requires IsSquare(g) && InBounds(|g|, p)
    requires ProtoSearch(g, w, p, marked).found
    ensures TraceableFrom(g, w, p, marked)
    decreases |w|, 2, 0
  {
    if |w| == 0 {
      TraceableFromEmpty(g, p, marked);
    } else {
      ProtoTrySound(g, w, p, SearchOrder, marked + {p}, marked);
    }
  }

  lemma {:induction false} ProtoTrySound(g: Grid, w: string, p: Pos, ds: seq<Direction>, marked: set<Pos>, blocked: set<Pos>)
    requires IsSquare(g) && InBounds(|g|, p) && |w| > 0
    requires blocked + {p} <= marked
    requires ProtoTry(g, w, p, ds, marked).found
    ensures TraceableFrom(g, w, p, blocked)
    decreases |w|, 1, |ds|
  {
    var o := ProtoAttempt(g, w, p, ds[0], marked);
    var q := Move(p, ds[0]);
    if ProtoCanMove(|g|, p, ds[0]) && CellAt(g, q) == w[0] && q !in marked {
      ProtoCanMoveBounds(|g|, p, ds[0]);
      ProtoSearchGrows(g, w[1..], q, marked);
      if o.found {
        ProtoSearchSound(g, w[1..], q, marked);
        TraceableFromAntitone(g, w[1..], q, blocked + {p}, marked);
        TraceExtend(g, w, p, q, blocked);
      }
    }
    if !o.found {
      ProtoTryGrows(g, w, p, ds[1..], o.marks);
      ProtoTrySound(g, w, p, ds[1..], o.marks, blocked);
    }
  }

  /** The search order, one direction at a time. */
  lemma ProtoTryUnfold(g: Grid, w: string, p: Pos, k: nat, marked: set<Pos>)
    requires IsSquare(g) && InBounds(|g|, p) && |w| > 0 && k < |SearchOrder|
    ensures ProtoTry(g, w, p, SearchOrder[k..], marked) ==
      var o := ProtoAttempt(g, w, p, SearchOrder[k], marked);
      if o.found then o else ProtoTry(g, w, p, SearchOrder[k + 1..], o.marks)
  {
    assert SearchOrder[k..][1..] == SearchOrder[k + 1..];
  }

  /** The prototype's `search_for_word` on an N×N mask: marks `(y, x)` and tries the
      eight neighbours in turn. Nothing is ever unmarked, so a failed branch leaves its
      marks behind for the branches tried after it. */
  method ProtoSearchForWord(g: Grid, w: string, y: int, x: int, visited: array2<bool>) returns (found: bool)
    requires IsSquare(g) && InBounds(|g|, (y, x))
    requires visited.Length0 == |g| && visited.Length1 == |g|
    modifies visited
    ensures found == ProtoSearch(g, w, (y, x), old(Marked(visited))).found
    ensures Marked(visited) == ProtoSearch(g, w, (y, x), old(Marked(visited))).marks
    decreases |w|, 2
  {
    var p := (y, x);
    ghost var entry := Marked(visited);
    visited[y, x] := true;
    assert Marked(visited) == entry + {p};
    if |w| == 0 {
      return true;
    }
    assert SearchOrder[0..] == SearchOrder;
    found := ProtoTryFrom(g, w, p, 0, visited);
  }

  /** The `if` blocks of the prototype's `search_for_word` from the `k`-th on, in the
      fixed order: the `k`-th block and, unless it returned true, the ones after it. */
  method ProtoTryFrom(g: Grid, w: string, p: Pos, k: nat, visited: array2<bool>) returns (found: bool)
    requires IsSquare(g) && InBounds(|g|, p) && |w| > 0 && k <= |SearchOrder|
    requires visited.Length0 == |g| && visited.Length1 == |g|
    modifies visited
    ensures found == ProtoTry(g, w, p, SearchOrder[k..], old(Marked(visited))).found
    ensures Marked(visited) == ProtoTry(g, w, p, SearchOrder[k..], old(Marked(visited))).marks
    decreases |w|, 1, |SearchOrder| - k
  {
    if k == |SearchOrder| {
      assert SearchOrder[k..] == [];
      return false;
    }
    ProtoTryUnfold(g, w, p, k, Marked(visited));
    found := ProtoTryMove(g, w, p, SearchOrder[k], visited);
    if !found {
      found := ProtoTryFrom(g, w, p, k + 1, visited);
    }
  }

  /** One `if` block of the prototype's `search_for_word`. */
  method ProtoTryMove(g: Grid, w: string, p: Pos, d: Direction, visited: array2<bool>) returns (found: bool)
    requires IsSquare(g) && InBounds(|g|, p) && |w| > 0
    requires visited.Length0 == |g| && visited.Length1 == |g|
    modifies visited
    ensures found == ProtoAttempt(g, w, p, d, old(Marked(visited))).found
    ensures Marked(visited) == ProtoAttempt(g, w, p, d, old(Marked(visited))).marks
    decreases |w|, 1, 0
  {
    var q := Move(p, d);
    if ProtoCanMove(|g|, p, d) {
      ProtoCanMoveBounds(|g|, p, d);
      if g[q.0][q.1] == w[0] && !visited[q.0, q.1] {
        found := ProtoSearchForWord(g, w[1..], q.0, q.1, visited);
        return;
      }
    }
    found := false;
  }

  // ---------------------------------------------------------------------------
  // The word list

  /** Some cell holding the first letter of `w` starts a successful prototype search
      (each start gets a fresh mask). */
  ghost predicate ProtoFound(g: Grid, w: string) {
    IsSquare(g) && |w| > 0 && exists s :: InBounds(|g|, s) && CellAt(g, s) == w[0] && ProtoSearch(g, w[1..], s, {}).found
  }

  ghost function ProtoFoundOn(g: Grid): string -> bool {
    w => ProtoFound(g, w)
  }

  /** The start-cell scan for one word, with `continue 'words` after a success. */
  method ProtoSearchFromEveryCell(g: Grid, word: string) returns (found: bool)
    requires IsSquare(g) && |word| > 0
    ensures found <==> ProtoFound(g, word)
  {
    var n := |g|;
    for y := 0 to n
      invariant forall s | InBounds(n, s) && s.0 < y ::
        !(CellAt(g, s) == word[0] && ProtoSearch(g, word[1..], s, {}).found)
    {
      for x := 0 to n
        invariant forall s | InBounds(n, s) && (s.0 < y || (s.0 == y && s.1 < x)) ::
          !(CellAt(g, s) == word[0] && ProtoSearch(g, word[1..], s, {}).found)
      {
        if g[y][x] == word[0] {
          var visited := new bool[n, n]((_, _) => false);
          assert Marked(visited) == {};
          found := ProtoSearchForWord(g, word[1..], y, x, visited);
          if found {
            return;
          }
        }
      }
    }
    found := false;
  }

  /** On a 1×1 board the `down` block computes `N - 2`, which underflows, as soon as a
      search from the single cell has letters left to find. The candidates that start
      such a search are the words of two or more letters made only of that cell's
      letter; on any other board no `N - 2` is reached with N < 2. */
  predicate ProtoNoUnderflow(g: Grid, dict: seq<string>)
    requires IsSquare(g)
  {
    |g| != 1 || forall w | w in dict && |w| >= 2 :: !AllIn(w, [g[0][0]])
  }

  /** The prototype's `generate_wordlist_from_game`: the words that pass the set
      pre-filter and for which some start cell's search succeeds, in dictionary order.
      Everything it lists can be traced on the grid. */
  method ProtoGenerateWordlistFromGame(g: Grid, dict: seq<string>) returns (wordlist: seq<string>)
    requires IsSquare(g) && IsDictionary(dict) && ProtoNoUnderflow(g, dict)
    ensures wordlist == Filtered(dict, ProtoFoundOn(g))
    ensures forall w | w in wordlist :: w in dict && Traceable(g, w)
    ensures Sorted(dict) ==> Sorted(wordlist)
  {
    var letters := Dedup(SortChars(Flatten(g)));
    var possible := ProtoFilterWordsByCharacter(dict, letters);
    wordlist := ProtoScan(g, possible);
    ProtoFoundPassesFilter(g, letters);
    FilteredFiltered(dict, AllInOf(letters), ProtoFoundOn(g));
    ProtoListTraceable(g, dict);
    if Sorted(dict) {
      FilteredSorted(dict, ProtoFoundOn(g));
    }
  }

  /** The `'words` loop: the candidates the start-cell scan finds, in order. */
  method ProtoScan(g: Grid, possible: seq<string>) returns (wordlist: seq<string>)
    requires IsSquare(g) && forall w | w in possible :: |w| > 0
    ensures wordlist == Filtered(possible, ProtoFoundOn(g))
  {
    wordlist := [];
    for i := 0 to |possible|
      invariant wordlist == Filtered(possible[..i], ProtoFoundOn(g))
    {
      assert possible[..i + 1][..i] == possible[..i];
      assert possible[i] in possible;
      var found := ProtoSearchFromEveryCell(g, possible[i]);
      if found {
        wordlist := wordlist + [possible[i]];
      }
    }
    assert possible[..|possible|] == possible;
  }

  /** A word the search finds passes the set pre-filter on the grid's letters, so the
      pre-filter loses nothing. */
  lemma ProtoFoundPassesFilter(g: Grid, letters: seq<char>)
    requires IsSquare(g) && letters == Dedup(SortChars(Flatten(g)))
    ensures forall w | ProtoFoundOn(g)(w) :: AllInOf(letters)(w)
  {
    forall w | ProtoFoundOn(g)(w) ensures AllIn(w, letters) {
      ProtoFoundTraceable(g, w);
      TraceableLettersOnGrid(g, w);
      forall k | 0 <= k < |w| ensures w[k] in letters {
        GridLetterSet(g, w[k]);
      }
    }
  }

  lemma ProtoListTraceable(g: Grid, dict: seq<string>)
    requires IsSquare(g)
    ensures forall w | w in Filtered(dict, ProtoFoundOn(g)) :: w in dict && Traceable(g, w)
  {
    forall w | w in Filtered(dict, ProtoFoundOn(g)) ensures Traceable(g, w) {
      ProtoFoundTraceable(g, w);
    }
  }

  /** What the prototype finds is traceable. */
  lemma ProtoFoundTraceable(g: Grid, w: string)
    requires IsSquare(g) && ProtoFound(g, w)
    ensures Traceable(g, w)
  {
    var s :| InBounds(|g|, s) && CellAt(g, s) == w[0] && ProtoSearch(g, w[1..], s, {}).found;
    ProtoSearchSound(g, w[1..], s, {});
    TraceableFromStart(g, w, s);
  }

  /** Every letter of a traceable word occurs on the grid. */
  lemma TraceableLettersOnGrid(g: Grid, w: string)
    requires IsSquare(g) && Traceable(g, w)
    ensures forall k | 0 <= k < |w| :: w[k] in Flatten(g)
  {
    TraceableLettersInGrid(g, w);
    forall k | 0 <= k < |w| ensures w[k] in Flatten(g) {
      assert w[k] in multiset(w);
    }
  }

  /** The prototype's list is part of the current library's list for the same grid and
      dictionary: its losses are the only difference. */
  lemma ProtoWordlistWithinCurrent(g: Grid, dict: seq<string>, w: string)
    requires IsSquare(g)
    requires w in Filtered(dict, ProtoFoundOn(g))
    ensures w in Filtered(dict, TraceableOn(g))
  {
    ProtoFoundTraceable(g, w);
  }

  // ---------------------------------------------------------------------------
  // Two words the prototype misses

  /** The `if` block for `d` does not recurse: the guard, the letter or the mask stops it. */
  predicate Blocked(g: Grid, w: string, p: Pos, d: Direction, marked: set<Pos>)
    requires |w| > 0
  {
    !(ProtoCanMove(|g|, p, d) && CellAt(g, Move(p, d)) == w[0] && Move(p, d) !in marked)
  }

  /** The eight directions in search order, and the cells they lead to from `p`. */
  lemma SearchOrderSteps(p: Pos)
    ensures SearchOrder[0] == Up && Move(p, Up) == (p.0 - 1, p.1)
    ensures SearchOrder[1] == UpLeft && Move(p, UpLeft) == (p.0 - 1, p.1 - 1)
    ensures SearchOrder[2] == UpRight && Move(p, UpRight) == (p.0 - 1, p.1 + 1)
    ensures SearchOrder[3] == Down && Move(p, Down) == (p.0 + 1, p.1)
    ensures SearchOrder[4] == DownLeft && Move(p, DownLeft) == (p.0 + 1, p.1 - 1)
    ensures SearchOrder[5] == DownRight && Move(p, DownRight) == (p.0 + 1, p.1 + 1)
    ensures SearchOrder[6] == Left && Move(p, Left) == (p.0, p.1 - 1)
    ensures SearchOrder[7] == Right && Move(p, Right) == (p.0, p.1 + 1)
  {
  }

  /** A blocked direction is passed over without touching the marks. */
  lemma ProtoTrySkipAt(g: Grid, w: string, p: Pos, k: nat, marked: set<Pos>)
    requires IsSquare(g) && InBounds(|g|, p) && |w| > 0 && k < |SearchOrder|
    requires Blocked(g, w, p, SearchOrder[k], marked)
    ensures ProtoTry(g, w, p, SearchOrder[k..], marked) == ProtoTry(g, w, p, SearchOrder[k + 1..], marked)
  {
    ProtoTryUnfold(g, w, p, k, marked);
  }

  /** A direction whose `if` block recurses and fails: the tries go on with the marks
      the failed branch left. */
  lemma ProtoTryDescend(g: Grid, w: string, p: Pos, k: nat, marked: set<Pos>, rest: string, q: Pos, o: Outcome)
    requires IsSquare(g) && InBounds(|g|, p) && |w| > 0 && k < |SearchOrder|
    requires rest == w[1..] && q == Move(p, SearchOrder[k])
    requires ProtoCanMove(|g|, p, SearchOrder[k]) && CellAt(g, q) == w[0] && q !in marked
    requires InBounds(|g|, q) && ProtoSearch(g, rest, q, marked) == o && !o.found
    ensures ProtoTry(g, w, p, SearchOrder[k..], marked) == ProtoTry(g, w, p, SearchOrder[k + 1..], o.marks)
  {
    ProtoTryUnfold(g, w, p, k, marked);
  }

  /** After the eighth direction the search gives up, keeping the marks it has. */
  lemma ProtoTryExhausted(g: Grid, w: string, p: Pos, marked: set<Pos>)
    requires IsSquare(g) && InBounds(|g|, p) && |w| > 0
    ensures ProtoTry(g, w, p, SearchOrder[8..], marked) == Outcome(false, marked)
  {
    assert SearchOrder[8..] == [];
  }

  /** On a 2×2 board the top-left cell is a dead end: every guard fails there. */
  lemma ProtoCornerStuck(g: Grid, w: string, marked: set<Pos>)
    requires IsSquare(g) && |g| == 2 && |w| > 0
    ensures ProtoSearch(g, w, (0, 0), marked) == Outcome(false, marked + {(0, 0)})
  {
    var m := marked + {(0, 0)};
    SearchOrderSteps((0, 0));
    assert SearchOrder[0..] == SearchOrder;
    ProtoTrySkipAt(g, w, (0, 0), 0, m);
    ProtoTrySkipAt(g, w, (0, 0), 1, m);
    ProtoTrySkipAt(g, w, (0, 0), 2, m);
    ProtoTrySkipAt(g, w, (0, 0), 3, m);
    ProtoTrySkipAt(g, w, (0, 0), 4, m);
    ProtoTrySkipAt(g, w, (0, 0), 5, m);
    ProtoTrySkipAt(g, w, (0, 0), 6, m);
    ProtoTrySkipAt(g, w, (0, 0), 7, m);
    ProtoTryExhausted(g, w, (0, 0), m);
  }

  /** The only `a` on the 2×2 board "ab"/"cd" is at (0,0). */
  lemma TopRowOneA(s: Pos)
    requires InBounds(2, s) && CellAt(["ab", "cd"], s) == 'a'
    ensures s == (0, 0)
  {
    var g := ["ab", "cd"];
    assert g[0] == "ab" && g[1] == "cd";
  }

  /** On a 2×2 board the prototype cannot step right or down at all, so it misses "ab"
      along the top row, which the current library finds. */
  lemma ProtoMissesTopRow()
    ensures Traceable(["ab", "cd"], "ab")
    ensures !ProtoFound(["ab", "cd"], "ab")
  {
    var g := ["ab", "cd"];
    var path := [(0, 0), (0, 1)];
    assert IsWalk(2, path) && Spells(g, path, "ab");
    forall s | InBounds(2, s) && CellAt(g, s) == 'a' ensures !ProtoSearch(g, "b", s, {}).found {
      TopRowOneA(s);
      ProtoCornerStuck(g, "b", {});
    }
  }

  /** The 4×4 board, row by row:

        c b z z
        x a z z
        z b z z
        z z z z

      "abxcb" runs (1,1) → (2,1) → (1,0) → (0,0) → (0,1). The prototype first tries the
      `b` above the `a`, goes on through `x` and `c`, fails for want of a second `b`,
      and leaves (0,1), (1,0) and (0,0) marked; the branch through the lower `b` then
      finds `x` marked. */
  function PoisonGrid(): (g: Grid)
    ensures IsSquare(g) && |g| == 4
  {
    ["cbzz", "xazz", "zbzz", "zzzz"]
  }

  /** A 4×4 board whose top-left 3×3 corner reads "cbz", "xaz", "zbz"; the prototype's
      guards never let it look further from the cells the search visits. */
  ghost predicate PoisonShape(g: Grid) {
    && IsSquare(g) && |g| == 4
    && CellAt(g, (0, 0)) == 'c' && CellAt(g, (0, 1)) == 'b' && CellAt(g, (0, 2)) == 'z'
    && CellAt(g, (1, 0)) == 'x' && CellAt(g, (1, 1)) == 'a' && CellAt(g, (1, 2)) == 'z'
    && CellAt(g, (2, 0)) == 'z' && CellAt(g, (2, 1)) == 'b' && CellAt(g, (2, 2)) == 'z'
  }

  lemma PoisonGridShape()
    ensures PoisonShape(PoisonGrid())
  {
    var g := PoisonGrid();
    assert g[0] == "cbzz" && g[1] == "xazz" && g[2] == "zbzz";
  }

  /** The marks the prototype has left, in the order it sets them. */
  const PoisonMarks: seq<set<Pos>> := [
    {},
    {(1, 1)},
    {(1, 1), (0, 1)},
    {(1, 1), (0, 1), (1, 0)},
    {(1, 1), (0, 1), (1, 0), (0, 0)},
    {(1, 1), (0, 1), (1, 0), (0, 0), (2, 1)}
  ]

  /** From the top-left `c`, the `b` beside it is already marked. */
  lemma PoisonFromC(g: Grid)
    requires PoisonShape(g)
    ensures ProtoSearch(g, "b", (0, 0), PoisonMarks[3]) == Outcome(false, PoisonMarks[4])
  {
    SearchOrderSteps((0, 0));
    assert PoisonMarks[3] + {(0, 0)} == PoisonMarks[4];
    assert SearchOrder[0..] == SearchOrder;
    ProtoTrySkipAt(g, "b", (0, 0), 0, PoisonMarks[4]);
    ProtoTrySkipAt(g, "b", (0, 0), 1, PoisonMarks[4]);
    ProtoTrySkipAt(g, "b", (0, 0), 2, PoisonMarks[4]);
    ProtoTrySkipAt(g, "b", (0, 0), 3, PoisonMarks[4]);
    PoisonCTail(g);
  }

  /** From the `c`, the last four directions hold no unmarked `b`. */
  lemma PoisonCTail(g: Grid)
    requires PoisonShape(g)
    ensures ProtoTry(g, "b", (0, 0), SearchOrder[4..], PoisonMarks[4]) == Outcome(false, PoisonMarks[4])
  {
    SearchOrderSteps((0, 0));
    ProtoTrySkipAt(g, "b", (0, 0), 4, PoisonMarks[4]);
    ProtoTrySkipAt(g, "b", (0, 0), 5, PoisonMarks[4]);
    ProtoTrySkipAt(g, "b", (0, 0), 6, PoisonMarks[4]);
    ProtoTrySkipAt(g, "b", (0, 0), 7, PoisonMarks[4]);
    ProtoTryExhausted(g, "b", (0, 0), PoisonMarks[4]);
  }

  /** From `x`: up to `c`, which fails; nothing else matches. */
  lemma PoisonFromX(g: Grid)
    requires PoisonShape(g)
    ensures ProtoSearch(g, "cb", (1, 0), PoisonMarks[2]) == Outcome(false, PoisonMarks[4])
  {
    SearchOrderSteps((1, 0));
    assert PoisonMarks[2] + {(1, 0)} == PoisonMarks[3];
    assert SearchOrder[0..] == SearchOrder;
    PoisonFromC(g);
    assert "cb"[1..] == "b";
    ProtoTryDescend(g, "cb", (1, 0), 0, PoisonMarks[3], "b", (0, 0), Outcome(false, PoisonMarks[4]));
    PoisonXRest(g);
  }

  /** From `x`, after the climb to `c`: no other neighbour holds a `c`. */
  lemma PoisonXRest(g: Grid)
    requires PoisonShape(g)
    ensures ProtoTry(g, "cb", (1, 0), SearchOrder[1..], PoisonMarks[4]) == Outcome(false, PoisonMarks[4])
  {
    SearchOrderSteps((1, 0));
    ProtoTrySkipAt(g, "cb", (1, 0), 1, PoisonMarks[4]);
    ProtoTrySkipAt(g, "cb", (1, 0), 2, PoisonMarks[4]);
    ProtoTrySkipAt(g, "cb", (1, 0), 3, PoisonMarks[4]);
    PoisonXTail(g);
  }

  /** From `x`, the last four directions hold no `c`. */
  lemma PoisonXTail(g: Grid)
    requires PoisonShape(g)
    ensures ProtoTry(g, "cb", (1, 0), SearchOrder[4..], PoisonMarks[4]) == Outcome(false, PoisonMarks[4])
  {
    SearchOrderSteps((1, 0));
    ProtoTrySkipAt(g, "cb", (1, 0), 4, PoisonMarks[4]);
    ProtoTrySkipAt(g, "cb", (1, 0), 5, PoisonMarks[4]);
    ProtoTrySkipAt(g, "cb", (1, 0), 6, PoisonMarks[4]);
    ProtoTrySkipAt(g, "cb", (1, 0), 7, PoisonMarks[4]);
    ProtoTryExhausted(g, "cb", (1, 0), PoisonMarks[4]);
  }

  /** From the upper `b`: down-left to `x`, which fails; nothing else matches. */
  lemma PoisonFromUpperB(g: Grid)
    requires PoisonShape(g)
    ensures ProtoSearch(g, "xcb", (0, 1), PoisonMarks[1]) == Outcome(false, PoisonMarks[4])
  {
    SearchOrderSteps((0, 1));
    assert PoisonMarks[1] + {(0, 1)} == PoisonMarks[2];
    assert SearchOrder[0..] == SearchOrder;
    PoisonUpperBFirst(g);
    PoisonFromX(g);
    assert "xcb"[1..] == "cb";
    ProtoTryDescend(g, "xcb", (0, 1), 4, PoisonMarks[2], "cb", (1, 0), Outcome(false, PoisonMarks[4]));
    PoisonUpperBRest(g);
  }

  /** From the upper `b`, the four directions before down-left hold no `x`. */
  lemma PoisonUpperBFirst(g: Grid)
    requires PoisonShape(g)
    ensures ProtoTry(g, "xcb", (0, 1), SearchOrder[0..], PoisonMarks[2])
         == ProtoTry(g, "xcb", (0, 1), SearchOrder[4..], PoisonMarks[2])
  {
    SearchOrderSteps((0, 1));
    ProtoTrySkipAt(g, "xcb", (0, 1), 0, PoisonMarks[2]);
    ProtoTrySkipAt(g, "xcb", (0, 1), 1, PoisonMarks[2]);
    ProtoTrySkipAt(g, "xcb", (0, 1), 2, PoisonMarks[2]);
    ProtoTrySkipAt(g, "xcb", (0, 1), 3, PoisonMarks[2]);
  }

  /** From the upper `b`, the directions after down-left hold no `x` either. */
  lemma PoisonUpperBRest(g: Grid)
    requires PoisonShape(g)
    ensures ProtoTry(g, "xcb", (0, 1), SearchOrder[5..], PoisonMarks[4]) == Outcome(false, PoisonMarks[4])
  {
    SearchOrderSteps((0, 1));
    ProtoTrySkipAt(g, "xcb", (0, 1), 5, PoisonMarks[4]);
    ProtoTrySkipAt(g, "xcb", (0, 1), 6, PoisonMarks[4]);
    ProtoTrySkipAt(g, "xcb", (0, 1), 7, PoisonMarks[4]);
    ProtoTryExhausted(g, "xcb", (0, 1), PoisonMarks[4]);
  }

  /** From the lower `b`: the `x` up-left of it is marked. */
  lemma PoisonFromLowerB(g: Grid)
    requires PoisonShape(g)
    ensures ProtoSearch(g, "xcb", (2, 1), PoisonMarks[4]) == Outcome(false, PoisonMarks[5])
  {
    SearchOrderSteps((2, 1));
    assert PoisonMarks[4] + {(2, 1)} == PoisonMarks[5];
    assert SearchOrder[0..] == SearchOrder;
    ProtoTrySkipAt(g, "xcb", (2, 1), 0, PoisonMarks[5]);
    ProtoTrySkipAt(g, "xcb", (2, 1), 1, PoisonMarks[5]);
    ProtoTrySkipAt(g, "xcb", (2, 1), 2, PoisonMarks[5]);
    ProtoTrySkipAt(g, "xcb", (2, 1), 3, PoisonMarks[5]);
    PoisonLowerBTail(g);
  }

  /** From the lower `b`, the last four directions hold no `x`. */
  lemma PoisonLowerBTail(g: Grid)
    requires PoisonShape(g)
    ensures ProtoTry(g, "xcb", (2, 1), SearchOrder[4..], PoisonMarks[5]) == Outcome(false, PoisonMarks[5])
  {
    SearchOrderSteps((2, 1));
    ProtoTrySkipAt(g, "xcb", (2, 1), 4, PoisonMarks[5]);
    ProtoTrySkipAt(g, "xcb", (2, 1), 5, PoisonMarks[5]);
    ProtoTrySkipAt(g, "xcb", (2, 1), 6, PoisonMarks[5]);
    ProtoTrySkipAt(g, "xcb", (2, 1), 7, PoisonMarks[5]);
    ProtoTryExhausted(g, "xcb", (2, 1), PoisonMarks[5]);
  }

  /** From the `a`: up fails, then down fails, and nothing else matches. */
  lemma PoisonFromA(g: Grid)
    requires PoisonShape(g)
    ensures !ProtoSearch(g, "bxcb", (1, 1), {}).found
  {
    SearchOrderSteps((1, 1));
    assert {} + {(1, 1)} == PoisonMarks[1];
    assert SearchOrder[0..] == SearchOrder;
    assert "bxcb"[1..] == "xcb";
    assert (2, 1) !in PoisonMarks[4] && Move((1, 1), SearchOrder[3]) == (2, 1);
    PoisonFromUpperB(g);
    ProtoTryDescend(g, "bxcb", (1, 1), 0, PoisonMarks[1], "xcb", (0, 1), Outcome(false, PoisonMarks[4]));
    PoisonAMiddle(g);
    PoisonFromLowerB(g);
    ProtoTryDescend(g, "bxcb", (1, 1), 3, PoisonMarks[4], "xcb", (2, 1), Outcome(false, PoisonMarks[5]));
    PoisonARest(g);
  }

  /** From the `a`, up-left and up-right hold no `b`. */
  lemma PoisonAMiddle(g: Grid)
    requires PoisonShape(g)
    ensures ProtoTry(g, "bxcb", (1, 1), SearchOrder[1..], PoisonMarks[4])
         == ProtoTry(g, "bxcb", (1, 1), SearchOrder[3..], PoisonMarks[4])
  {
    SearchOrderSteps((1, 1));
    ProtoTrySkipAt(g, "bxcb", (1, 1), 1, PoisonMarks[4]);
    ProtoTrySkipAt(g, "bxcb", (1, 1), 2, PoisonMarks[4]);
  }

  /** From the `a`, after both `b` branches: no other neighbour holds a `b`. */
  lemma PoisonARest(g: Grid)
    requires PoisonShape(g)
    ensures ProtoTry(g, "bxcb", (1, 1), SearchOrder[4..], PoisonMarks[5]) == Outcome(false, PoisonMarks[5])
  {
    SearchOrderSteps((1, 1));
    ProtoTrySkipAt(g, "bxcb", (1, 1), 4, PoisonMarks[5]);
    ProtoTrySkipAt(g, "bxcb", (1, 1), 5, PoisonMarks[5]);
    ProtoTrySkipAt(g, "bxcb", (1, 1), 6, PoisonMarks[5]);
    ProtoTrySkipAt(g, "bxcb", (1, 1), 7, PoisonMarks[5]);
    ProtoTryExhausted(g, "bxcb", (1, 1), PoisonMarks[5]);
  }

  /** The only `a` on the board is at (1,1). */
  lemma PoisonGridOneA(s: Pos)
    requires InBounds(4, s) && CellAt(PoisonGrid(), s) == 'a'
    ensures s == (1, 1)
  {
    var g := PoisonGrid();
    assert g[0] == "cbzz" && g[1] == "xazz" && g[2] == "zbzz" && g[3] == "zzzz";
  }

  /** "abxcb" can be traced, but the prototype does not find it. */
  lemma ProtoMissesAfterBacktrack()
    ensures Traceable(PoisonGrid(), "abxcb")
    ensures !ProtoFound(PoisonGrid(), "abxcb")
  {
    var g := PoisonGrid();
    PoisonGridShape();
    PoisonTraceable(g);
    forall s | InBounds(4, s) && CellAt(g, s) == 'a' ensures !ProtoSearch(g, "bxcb", s, {}).found {
      PoisonGridOneA(s);
      PoisonFromA(g);
    }
  }

  /** The walk (1,1) → (2,1) → (1,0) → (0,0) → (0,1) spells "abxcb". */
  lemma PoisonTraceable(g: Grid)
    requires PoisonShape(g)
    ensures Traceable(g, "abxcb")
  {
    var path := [(1, 1), (2, 1), (1, 0), (0, 0), (0, 1)];
    assert Spells(g, path, "abxcb");
    assert Distinct(path);
    assert path[0] == (1, 1) && path[1] == (2, 1) && path[2] == (1, 0) && path[3] == (0, 0) && path[4] == (0, 1);
    assert Adjacent((1, 1), (2, 1)) && Adjacent((2, 1), (1, 0)) && Adjacent((1, 0), (0, 0)) && Adjacent((0, 0), (0, 1));
    assert IsWalk(4, path);
  }
}
