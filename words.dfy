/** The word side of the current puzzle library: the dictionary queries, the letter
    pool the grid is filled from, letter counting, and the search that lists every
    dictionary word traceable on a finished grid.

    The compiled-in dictionary is the parameter `dict`. Every random choice is a
    nondeterministic pick: the model says which values are possible, not how likely. */
module Words {
  import opened Wrappers
  import opened Seqs
  import opened Board

  predicate IsLowerAscii(c: char) {
    'a' <= c <= 'z'
  }

  /** What the engine assumes of a dictionary entry: non-empty, lower-case ASCII. */
  predicate IsWord(w: string) {
    |w| > 0 && forall k | 0 <= k < |w| :: IsLowerAscii(w[k])
  }

  predicate IsDictionary(dict: seq<string>) {
    forall w | w in dict :: IsWord(w)
  }

  // ---------------------------------------------------------------------------
  // Dictionary queries

  /** The filter `get_all_n_length_words` applies: exactly `n` characters. */
  function HasLength(n: nat): string -> bool {
    w => |w| == n
  }

  /** Every dictionary word of `n` characters, in dictionary order. */
  method AllNLengthWords(dict: seq<string>, n: nat) returns (output: seq<string>)
    ensures output == Filtered(dict, HasLength(n))
    ensures forall w :: w in output <==> w in dict && |w| == n
    ensures Sorted(dict) ==> Sorted(output)
  {
    output := [];
    for i := 0 to |dict|
      invariant output == Filtered(dict[..i], HasLength(n))
    {
      assert dict[..i + 1][..i] == dict[..i];
      if |dict[i]| == n {
        output := output + [dict[i]];
      }
    }
    assert dict[..|dict|] == dict;
    if Sorted(dict) {
      FilteredSorted(dict, HasLength(n));
    }
  }

  /** `get_random_word`: some element of `words`, or nothing when there is none. */
  method RandomWord(words: seq<string>) returns (r: Option<string>)
    ensures r.None? <==> words == []
    ensures r.Some? ==> r.value in words
  {
    if words == [] {
      return None;
    }
    var i :| 0 <= i < |words|;
    r := Some(words[i]);
  }

  /** `get_random_n_length_word`: a dictionary word of exactly `n` characters. Where the
      library panics ("Requested word of nonexistant size!"), the model returns
      `None`. */
  method RandomNLengthWord(dict: seq<string>, n: nat) returns (r: Option<string>)
    ensures r.None? <==> forall w | w in dict :: |w| != n
    ensures r.Some? ==> r.value in dict && |r.value| == n
  {
    var candidates := AllNLengthWords(dict, n);
    r := RandomWord(candidates);
  }

  // ---------------------------------------------------------------------------
  // The letter pool

  /** `'a'..='z'`. */
  const Alphabet: string := seq(26, i requires 0 <= i < 26 => ('a' as int + i) as char)

  /** `('a'..='z').chain(['a', 'e', 'i', 'o', 'u'])`: the alphabet, then the vowels once
      more. */
  const LetterPool: string := Alphabet + "aeiou"

  predicate IsVowel(c: char) {
    c == 'a' || c == 'e' || c == 'i' || c == 'o' || c == 'u'
  }

  lemma AlphabetOnce(c: char)
    ensures multiset(Alphabet)[c] == if IsLowerAscii(c) then 1 else 0
  {
    assert Distinct(Alphabet);
    DistinctMultiplicity(Alphabet, c);
    if IsLowerAscii(c) {
      assert Alphabet[c as int - 'a' as int] == c;
    }
  }

  /** The pool holds every lower-case letter, each vowel twice and each consonant once,
      so a uniform pick makes a vowel twice as likely as a consonant. */
  lemma LetterPoolWeights(c: char)
    ensures multiset(LetterPool)[c] == if IsVowel(c) then 2 else if IsLowerAscii(c) then 1 else 0
  {
    AlphabetOnce(c);
    VowelsOnce(c);
    assert multiset(LetterPool) == multiset(Alphabet) + multiset("aeiou");
  }

  lemma VowelsOnce(c: char)
    ensures multiset("aeiou")[c] == if IsVowel(c) then 1 else 0
    ensures IsVowel(c) ==> IsLowerAscii(c)
  {
    assert Distinct("aeiou");
    DistinctMultiplicity("aeiou", c);
  }

  /** `get_random_letter`: a pick from the pool, always a lower-case letter. */
  method RandomLetter() returns (c: char)
    ensures c in LetterPool && IsLowerAscii(c)
  {
    var i :| 0 <= i < |LetterPool|;
    c := LetterPool[i];
  }

  // ---------------------------------------------------------------------------
  // Letter counting

  /** `(char as u8 - b'a') as usize`: the low byte of the code point, less 'a'. */
  function Slot(c: char): int {
    (c as int) % 256 - 97
  }

  /** `count_chars` panics on a character whose slot is outside the 26 counters (an
      underflow or an out-of-range index). */
  predicate HasSlot(c: char) {
    0 <= Slot(c) < 26
  }

  predicate Countable(s: string) {
    forall k | 0 <= k < |s| :: HasSlot(s[k])
  }

  /** Counter `i` holds the number of characters of `s` whose slot is `i`. */
  function LetterCounts(s: string): (counts: seq<nat>)
    ensures |counts| == 26
  {
    seq(26, i => multiset(Map(Slot, s))[i])
  }

  /** `count_chars`: one pass over the word, bumping one of 26 counters per character. */
  method CountChars(word: string) returns (counts: seq<nat>)
    requires Countable(word)
    ensures counts == LetterCounts(word)
  {
    var a := new nat[26](_ => 0);
    for k := 0 to |word|
      invariant forall i | 0 <= i < 26 :: a[i] == multiset(Map(Slot, word[..k]))[i]
    {
      var idx := (word[k] as int) % 256 - 97;
      assert Map(Slot, word[..k + 1]) == Map(Slot, word[..k]) + [idx];
      a[idx] := a[idx] + 1;
    }
    assert word[..|word|] == word;
    counts := a[..];
  }

  function Sum(xs: seq<nat>): nat {
    if xs == [] then 0 else Sum(xs[..|xs| - 1]) + xs[|xs| - 1]
  }

  lemma {:induction false} SumBump(xs: seq<nat>, j: int)
    requires 0 <= j < |xs|
    ensures Sum(xs[j := xs[j] + 1]) == Sum(xs) + 1
    decreases |xs|
  {
    var ys := xs[j := xs[j] + 1];
    assert ys[..|ys| - 1] == if j < |xs| - 1 then xs[..|xs| - 1][j := xs[j] + 1] else xs[..|xs| - 1];
    if j < |xs| - 1 {
      SumBump(xs[..|xs| - 1], j);
    }
  }

  /** Every character of a countable string lands in exactly one counter. */
  lemma {:induction false} LetterCountsTotal(s: string)
    requires Countable(s)
    ensures Sum(LetterCounts(s)) == |s|
    decreases |s|
  {
    if s == [] {
      assert LetterCounts(s) == seq(26, i => 0);
      ZeroSum(26);
    } else {
      var init := s[..|s| - 1];
      var last := s[|s| - 1];
      MapSnoc(Slot, s);
      LetterCountsTotal(init);
      assert LetterCounts(s) == LetterCounts(init)[Slot(last) := LetterCounts(init)[Slot(last)] + 1];
      SumBump(LetterCounts(init), Slot(last));
    }
  }

  lemma {:induction false} ZeroSum(k: nat)
    ensures Sum(seq(k, i => 0)) == 0
  {
    if k > 0 {
      assert seq(k, i => 0)[..k - 1] == seq(k - 1, i => 0);
      ZeroSum(k - 1);
    }
  }

  lemma SlotOfLower(c: char)
    requires IsLowerAscii(c)
    ensures Slot(c) == c as int - 'a' as int
  {
    assert (c as int) % 256 == c as int;
  }

  /** A word of the dictionary can be counted. */
  lemma WordCountable(w: string)
    requires IsWord(w)
    ensures Countable(w)
  {
    forall k | 0 <= k < |w| ensures HasSlot(w[k]) {
      SlotOfLower(w[k]);
    }
  }

  /** On lower-case ASCII, counter `c - 'a'` counts the occurrences of `c`. */
  lemma {:induction false} LetterCountsOfLower(s: string, c: char)
    requires forall k | 0 <= k < |s| :: IsLowerAscii(s[k])
    requires IsLowerAscii(c)
    ensures LetterCounts(s)[c as int - 'a' as int] == multiset(s)[c]
    decreases |s|
  {
    if s != [] {
      var init, last := s[..|s| - 1], s[|s| - 1];
      LetterCountsOfLower(init, c);
      SlotOfLower(last);
      SlotOfLower(c);
      SlotsSnoc(s);
      MultisetSnoc(s);
    }
  }

  lemma SlotsSnoc(s: string)
    requires s != []
    ensures multiset(Map(Slot, s)) == multiset(Map(Slot, s[..|s| - 1])) + multiset{Slot(s[|s| - 1])}
  {
    MapSnoc(Slot, s);
  }

  /** The library's own check of `count_chars` on "boot". */
  lemma CountCharsBoot()
    ensures LetterCounts("boot")[1] == 1
    ensures LetterCounts("boot")[14] == 2
    ensures LetterCounts("boot")[0] == 0
  {
    LetterCountsOfLower("boot", 'b');
    LetterCountsOfLower("boot", 'o');
    LetterCountsOfLower("boot", 'a');
  }

  // ---------------------------------------------------------------------------
  // The letter pre-filter

  /** No counter of `w` exceeds the same counter of `chars`. */
  predicate Fits(w: string, chars: string) {
    forall i | 0 <= i < 26 :: LetterCounts(w)[i] <= LetterCounts(chars)[i]
  }

  function FitsIn(chars: string): string -> bool {
    w => Fits(w, chars)
  }

  /** `filter_words_by_character`: the dictionary words whose letter counts fit in the
      counts of `chars`, in dictionary order. Counting panics on a character without a
      slot, so all of them must have one. */
  function FilterWordsByCharacter(dict: seq<string>, chars: string): (r: seq<string>)
    requires Countable(chars) && forall w | w in dict :: Countable(w)
    ensures forall w :: w in r <==> w in dict && Fits(w, chars)
    ensures Sorted(dict) ==> Sorted(r)
  {
    if Sorted(dict) then
      FilteredSorted(dict, FitsIn(chars));
      Filtered(dict, FitsIn(chars))
    else
      Filtered(dict, FitsIn(chars))
  }

  /** On lower-case ASCII the count test is multiset inclusion: `w` can be spelt with
      the letters of `chars`, each used at most once. */
  lemma FitsIffSubMultiset(w: string, chars: string)
    requires forall k | 0 <= k < |w| :: IsLowerAscii(w[k])
    requires forall k | 0 <= k < |chars| :: IsLowerAscii(chars[k])
    ensures Fits(w, chars) <==> multiset(w) <= multiset(chars)
  {
    if Fits(w, chars) {
      forall c ensures multiset(w)[c] <= multiset(chars)[c] {
        if IsLowerAscii(c) {
          LetterCountsOfLower(w, c);
          LetterCountsOfLower(chars, c);
        } else {
          assert c !in w;
        }
      }
    }
    if multiset(w) <= multiset(chars) {
      forall i | 0 <= i < 26 ensures LetterCounts(w)[i] <= LetterCounts(chars)[i] {
        var c := (i + 'a' as int) as char;
        LetterCountsOfLower(w, c);
        LetterCountsOfLower(chars, c);
      }
    }
  }

  /** The library's own check of the pre-filter on "bos": "sob" passes, "boss" does
      not. */
  lemma FilterBos()
    ensures "sob" in FilterWordsByCharacter(["boss", "sob"], "bos")
    ensures "boss" !in FilterWordsByCharacter(["boss", "sob"], "bos")
  {
    SobFits();
    BossDoesNotFit();
  }

  /** "sob" is an anagram of "bos". */
  lemma SobFits()
    ensures Fits("sob", "bos")
  {
    FitsIffSubMultiset("sob", "bos");
    assert multiset("sob") == multiset("bos");
  }

  /** "boss" needs two `s`, "bos" has one. */
  lemma BossDoesNotFit()
    ensures !Fits("boss", "bos")
  {
    FitsIffSubMultiset("boss", "bos");
    assert multiset("boss")['s'] == 2;
    assert multiset("bos")['s'] == 1;
  }

  /** The pre-filter never drops a traceable word: a walk takes each cell once, so a
      traceable word never needs more of a letter than the grid holds. */
  lemma TraceableFits(g: Grid, w: string)
    requires IsSquare(g) && Traceable(g, w)
    ensures Fits(w, Flatten(g))
  {
    TraceableLettersInGrid(g, w);
    MapSubMultiset(Slot, w, Flatten(g));
  }

  // ---------------------------------------------------------------------------
  // The grid search

  /** One of the eight `if` blocks of `search_for_word` succeeds: the move stays on the
      board, the neighbour carries the next letter and is not marked, and the rest of
      the word can be traced from there. */
  ghost predicate StepSucceeds(g: Grid, w: string, p: Pos, d: Direction, marked: set<Pos>)
    requires |w| > 0
  {
    var q := Move(p, d);
    CanMove(|g|, p, d) && CellAt(g, q) == w[0] && q !in marked && TraceableFrom(g, w[1..], q, marked)
  }

  /** A trace of a non-empty remainder starts with one of the eight moves. */
  lemma TraceNeedsStep(g: Grid, w: string, p: Pos, blocked: set<Pos>)
    requires |w| > 0 && InBounds(|g|, p)
    ensures TraceableFrom(g, w, p, blocked) ==>
      || StepSucceeds(g, w, p, Up, blocked + {p})
      || StepSucceeds(g, w, p, UpLeft, blocked + {p})
      || StepSucceeds(g, w, p, UpRight, blocked + {p})
      || StepSucceeds(g, w, p, Down, blocked + {p})
      || StepSucceeds(g, w, p, DownLeft, blocked + {p})
      || StepSucceeds(g, w, p, DownRight, blocked + {p})
      || StepSucceeds(g, w, p, Left, blocked + {p})
      || StepSucceeds(g, w, p, Right, blocked + {p})
  {
    if TraceableFrom(g, w, p, blocked) {
      var q := TraceFirstStep(g, w, p, blocked);
      var d := DirectionTo(p, q);
      CanMoveIff(|g|, p, d);
      assert StepSucceeds(g, w, p, d, blocked + {p});
    }
  }

  /** Any of the eight moves that succeeds gives a trace. */
  lemma StepTraces(g: Grid, w: string, p: Pos, d: Direction, blocked: set<Pos>)
    requires |w| > 0 && InBounds(|g|, p)
    requires StepSucceeds(g, w, p, d, blocked + {p})
    ensures TraceableFrom(g, w, p, blocked)
  {
    TraceExtend(g, w, p, Move(p, d), blocked);
  }

  /** `search_for_word`: marks `(y, x)`, then tries the eight neighbours in turn. It
      answers whether the rest of the word `w` can be traced onward from `(y, x)`
      through cells that were not marked on entry. On failure the mask is left as it
      was, less `(y, x)`; on success the marks set along the found path stay. */
  method SearchForWord(g: Grid, w: string, y: int, x: int, visited: array2<bool>) returns (found: bool)
    requires IsSquare(g) && InBounds(|g|, (y, x))
    requires visited.Length0 == |g| && visited.Length1 == |g|
    modifies visited
    ensures found <==> TraceableFrom(g, w, (y, x), old(Marked(visited)))
    ensures found ==> old(Marked(visited)) + {(y, x)} <= Marked(visited)
    ensures !found ==> Marked(visited) == old(Marked(visited)) - {(y, x)}
    decreases |w|, 1
  {
    var p := (y, x);
    ghost var entry := Marked(visited);
    visited[y, x] := true;
    ghost var marked := entry + {p};
    assert Marked(visited) == marked;
    if |w| == 0 {
      TraceableFromEmpty(g, p, entry);
      return true;
    }
    TraceNeedsStep(g, w, p, entry);
    found := TryMove(g, w, p, Up, visited);
    if found {
      StepTraces(g, w, p, Up, entry);
      return;
    }
    found := TryMove(g, w, p, UpLeft, visited);
    if found {
      StepTraces(g, w, p, UpLeft, entry);
      return;
    }
    found := TryMove(g, w, p, UpRight, visited);
    if found {
      StepTraces(g, w, p, UpRight, entry);
      return;
    }
    found := TryMove(g, w, p, Down, visited);
    if found {
      StepTraces(g, w, p, Down, entry);
      return;
    }
    found := TryMove(g, w, p, DownLeft, visited);
    if found {
      StepTraces(g, w, p, DownLeft, entry);
      return;
    }
    found := TryMove(g, w, p, DownRight, visited);
    if found {
      StepTraces(g, w, p, DownRight, entry);
      return;
    }
    found := TryMove(g, w, p, Left, visited);
    if found {
      StepTraces(g, w, p, Left, entry);
      return;
    }
    found := TryMove(g, w, p, Right, visited);
    if found {
      StepTraces(g, w, p, Right, entry);
      return;
    }
    visited[y, x] := false;
    assert Marked(visited) == entry - {p};
  }

  /** One `if` block of `search_for_word`: the guard, the letter test, the mask test, and
      the recursive search, in that order. */
  method TryMove(g: Grid, w: string, p: Pos, d: Direction, visited: array2<bool>) returns (found: bool)
    requires IsSquare(g) && InBounds(|g|, p) && |w| > 0
    requires visited.Length0 == |g| && visited.Length1 == |g|
    modifies visited
    ensures found == StepSucceeds(g, w, p, d, old(Marked(visited)))
    ensures found ==> old(Marked(visited)) <= Marked(visited)
    ensures !found ==> Marked(visited) == old(Marked(visited))
    decreases |w|, 0
  {
    var q := Move(p, d);
    CanMoveIff(|g|, p, d);
    if CanMove(|g|, p, d) && g[q.0][q.1] == w[0] && !visited[q.0, q.1] {
      found := SearchForWord(g, w[1..], q.0, q.1, visited);
    } else {
      found := false;
    }
  }

  /** The start-cell scan for one word: every cell holding its first letter, in row-major
      order, with a fresh mask each time, until one search succeeds (the
      `continue 'words`). */
  method SearchFromEveryCell(g: Grid, word: string) returns (found: bool)
    requires IsSquare(g) && |word| > 0
    ensures found <==> Traceable(g, word)
  {
    var n := |g|;
    for y := 0 to n
      invariant forall s | InBounds(n, s) && s.0 < y ::
        !(CellAt(g, s) == word[0] && TraceableFrom(g, word[1..], s, {}))
    {
      for x := 0 to n
        invariant forall s | InBounds(n, s) && (s.0 < y || (s.0 == y && s.1 < x)) ::
          !(CellAt(g, s) == word[0] && TraceableFrom(g, word[1..], s, {}))
      {
        if g[y][x] == word[0] {
          var visited := new bool[n, n]((_, _) => false);
          assert Marked(visited) == {};
          found := SearchForWord(g, word[1..], y, x, visited);
          if found {
            TraceableFromStart(g, word, (y, x));
            return;
          }
        }
      }
    }
    found := false;
    TraceableHasStart(g, word);
  }

  lemma TraceableHasStart(g: Grid, w: string)
    requires |w| > 0
    ensures Traceable(g, w) ==>
      exists s :: InBounds(|g|, s) && CellAt(g, s) == w[0] && TraceableFrom(g, w[1..], s, {})
  {
    if Traceable(g, w) {
      var s := TraceableStart(g, w);
    }
  }

  ghost function TraceableOn(g: Grid): string -> bool {
    w => Traceable(g, w)
  }

  /** Grid letters the library can count. */
  predicate CountableGrid(g: Grid) {
    forall y, x | 0 <= y < |g| && 0 <= x < |g[y]| :: HasSlot(g[y][x])
  }

  lemma {:induction false} FlattenCountable(g: Grid)
    requires CountableGrid(g)
    ensures Countable(Flatten(g))
    decreases |g|
  {
    if g != [] {
      var init := g[..|g| - 1];
      assert CountableGrid(init) by {
        forall y, x | 0 <= y < |init| && 0 <= x < |init[y]| ensures HasSlot(init[y][x]) {
          assert init[y] == g[y];
        }
      }
      FlattenCountable(init);
    }
  }

  /** `generate_wordlist_from_game`: the pre-filtered dictionary words, in dictionary
      order, that can be traced on the grid. The list holds exactly the dictionary words
      that can be traced: the pre-filter loses none of them. */
  method GenerateWordlistFromGame(g: Grid, dict: seq<string>) returns (wordlist: seq<string>)
    requires IsSquare(g) && CountableGrid(g) && IsDictionary(dict)
    ensures wordlist == Filtered(dict, TraceableOn(g))
    ensures forall w :: w in wordlist <==> w in dict && Traceable(g, w)
    ensures Sorted(dict) ==> Sorted(wordlist)
  {
    FlattenCountable(g);
    forall w | w in dict ensures Countable(w) {
      WordCountable(w);
    }
    var letters := Flatten(g);
    var possible := FilterWordsByCharacter(dict, letters);
    wordlist := Scan(g, possible);
    forall w | TraceableOn(g)(w) ensures FitsIn(letters)(w) {
      TraceableFits(g, w);
    }
    FilteredFiltered(dict, FitsIn(letters), TraceableOn(g));
    if Sorted(dict) {
      FilteredSorted(dict, TraceableOn(g));
    }
  }

  /** The `'words` loop: the candidates some start cell traces, in order. */
  method Scan(g: Grid, possible: seq<string>) returns (wordlist: seq<string>)
    requires IsSquare(g) && forall w | w in possible :: |w| > 0
    ensures wordlist == Filtered(possible, TraceableOn(g))
  {
    wordlist := [];
    for i := 0 to |possible|
      invariant wordlist == Filtered(possible[..i], TraceableOn(g))
    {
      assert possible[..i + 1][..i] == possible[..i];
      assert possible[i] in possible;
      var found := SearchFromEveryCell(g, possible[i]);
      if found {
        wordlist := wordlist + [possible[i]];
      }
    }
    assert possible[..|possible|] == possible;
  }
}
