/**
 * Word Scrambler: ten levels of five words each.  A word's letters are dealt
 * as numbered tiles in a scrambled order; the player moves tiles between the
 * scrambled row and the answer row and checks the answer case-insensitively.
 * A level scored at 30 points or more unlocks the next one when it was the
 * highest level unlocked so far.
 */
module WordScrambler {
  import opened GameTypes
  import Shuffle
  import Sorting
  import Text

  const TotalLevels: int := 10
  const WordsPerLevel: nat := 5
  const ScoreToUnlock: nat := 30
  const PointsPerWord: nat := 10

  datatype View = Levels | Playing | LevelSummary

  /** A letter tile: the character and its position in the scrambled word. */
  datatype Tile = Tile(ch: char, id: int)

  function TileId(t: Tile): int
  {
    t.id
  }

  // ---------------------------------------------------------------- scrambling

  /** Every letter of the word is the same letter (this includes words of length 0 and 1). */
  predicate Uniform(word: string)
  {
    forall i, j :: 0 <= i < |word| && 0 <= j < |word| ==> word[i] == word[j]
  }

  predicate AttemptsValid(word: string, attempts: seq<seq<nat>>)
  {
    forall k :: 0 <= k < |attempts| ==> Shuffle.ValidDraws(attempts[k], |word|)
  }

  /** Among the attempts' draws some shuffle gives a word different from the original. */
  predicate Scrambles(word: string, attempts: seq<seq<nat>>)
  {
    && AttemptsValid(word, attempts)
    && exists k :: 0 <= k < |attempts| && Shuffle.FisherYates(word, attempts[k]) != word
  }

  /**
   * `shuffle`: Fisher-Yates on the word's letters, starting over while the
   * result equals the word.  Each attempt's draws are given in turn; the
   * result is the first shuffle that differs from the word, or None when
   * every attempt gives the word back (the source would go on retrying).
   */
  method Scramble(word: string, attempts: seq<seq<nat>>) returns (r: Option<string>)
    requires AttemptsValid(word, attempts)
    ensures r.Some? ==> r.value != word && multiset(r.value) == multiset(word) && |r.value| == |word|
    ensures r.Some? ==> exists k :: 0 <= k < |attempts| && r.value == Shuffle.FisherYates(word, attempts[k])
    ensures r.None? <==> !Scrambles(word, attempts)
  {
    var k := 0;
    while k < |attempts|
      invariant 0 <= k <= |attempts|
      invariant forall j :: 0 <= j < k ==> Shuffle.FisherYates(word, attempts[j]) == word
    {
      var a := Shuffle.ShuffleFor(word, attempts[k]);
      if a != word {
        return Some(a);
      }
      k := k + 1;
    }
    return None;
  }

  /** A word of one repeated letter is given back by every shuffle. */
  lemma UniformNeverScrambles(word: string, draws: seq<nat>)
    requires Shuffle.ValidDraws(draws, |word|) && Uniform(word)
    ensures Shuffle.FisherYates(word, draws) == word
  {
    if word != [] {
      Shuffle.ShuffledConstant(word, draws, |word|, word[0]);
    }
  }

  /**
   * For a word of one repeated letter (a one-letter word among them) no list
   * of attempts ever scrambles: the retry in `shuffle` starts over on every
   * attempt and ends only when the call stack overflows.
   */
  lemma UniformRetriesForever(word: string, attempts: seq<seq<nat>>)
    requires AttemptsValid(word, attempts) && Uniform(word)
    ensures !Scrambles(word, attempts)
  {
    forall k | 0 <= k < |attempts|
      ensures Shuffle.FisherYates(word, attempts[k]) == word
    {
      UniformNeverScrambles(word, attempts[k]);
    }
  }

  /** A word can be dealt: it is one repeated letter, or some attempt scrambles it. */
  predicate Dealable(word: string, attempts: seq<seq<nat>>)
  {
    AttemptsValid(word, attempts) && (Uniform(word) || Scrambles(word, attempts))
  }

  /**
   * The scramble `shuffle` evidently intends: a word that no shuffle can
   * change is dealt as it is, and any other word is scrambled as before.
   * The result equals the word exactly when the word is one repeated letter.
   */
  method ScrambleOrKeep(word: string, attempts: seq<seq<nat>>) returns (r: Option<string>)
    requires AttemptsValid(word, attempts)
    ensures r.Some? ==> multiset(r.value) == multiset(word) && |r.value| == |word|
    ensures r.Some? ==> (r.value == word <==> Uniform(word))
    ensures r.None? <==> !Dealable(word, attempts)
  {
    if Uniform(word) {
      return Some(word);
    }
    r := Scramble(word, attempts);
  }

  /** A word with two different letters p < q is changed by the shuffle that swaps only q with p. */
  lemma ScrambleExists(word: string, p: nat, q: nat) returns (draws: seq<nat>)
    requires p < q < |word| && word[p] != word[q]
    ensures Shuffle.ValidDraws(draws, |word|) && Shuffle.FisherYates(word, draws) != word
  {
    draws := seq(|word|, k requires 0 <= k < |word| => if k == q then p else k);
    var swapped := Shuffle.Swap(word, q, p);
    Shuffle.ShuffledSkip(word, draws, |word|, q + 1);
    assert Shuffle.Shuffled(word, draws, q + 1) == Shuffle.Shuffled(swapped, draws, q);
    Shuffle.ShuffledSkip(swapped, draws, q, 0);
    assert Shuffle.FisherYates(word, draws)[q] == word[p];
  }

  /** The retry loop can end exactly for the words that are not one repeated letter. */
  lemma ScrambleableIff(word: string)
    ensures (exists d :: Shuffle.ValidDraws(d, |word|) && Shuffle.FisherYates(word, d) != word) <==> !Uniform(word)
  {
    if Uniform(word) {
      forall d | Shuffle.ValidDraws(d, |word|) ensures Shuffle.FisherYates(word, d) == word {
        UniformNeverScrambles(word, d);
      }
    } else {
      var i, j :| 0 <= i < |word| && 0 <= j < |word| && word[i] != word[j];
      var d;
      if i < j {
        d := ScrambleExists(word, i, j);
      } else {
        d := ScrambleExists(word, j, i);
      }
    }
  }

  // --------------------------------------------------------------------- tiles

  /** The tiles of a scrambled word: its letters numbered 0 to n-1 in order. */
  function Tiles(s: string): (r: seq<Tile>)
    ensures |r| == |s| && forall i :: 0 <= i < |s| ==> r[i] == Tile(s[i], i)
  {
    seq(|s|, i requires 0 <= i < |s| => Tile(s[i], i))
  }

  lemma TilesOrdered(s: string)
    ensures Sorting.SortedBy(Tiles(s), TileId) && Sorting.DistinctKeys(Tiles(s), TileId)
  {
  }

  /** The word a row of tiles spells. */
  function Chars(tiles: seq<Tile>): (w: string)
    ensures |w| == |tiles| && forall i :: 0 <= i < |tiles| ==> w[i] == tiles[i].ch
  {
    seq(|tiles|, i requires 0 <= i < |tiles| => tiles[i].ch)
  }

  /** No two tiles of the row share an id. */
  predicate DistinctIds(row: seq<Tile>)
  {
    forall i, j :: 0 <= i < j < |row| ==> row[i].id != row[j].id
  }

  lemma DistinctIdsKeys(row: seq<Tile>)
    ensures DistinctIds(row) <==> Sorting.DistinctKeys(row, TileId)
  {
  }

  predicate Disjoint(a: seq<Tile>, b: seq<Tile>)
  {
    forall x, y :: x in a && y in b ==> x.id != y.id
  }

  /** The two rows share out the dealt tiles, each tile exactly once. */
  predicate RowsValid(scrambled: seq<Tile>, answer: seq<Tile>, dealt: string)
  {
    && DistinctIds(scrambled) && DistinctIds(answer)
    && Disjoint(scrambled, answer)
    && multiset(scrambled) + multiset(answer) == multiset(Tiles(dealt))
  }

  /** Freshly dealt tiles all in the scrambled row, none in the answer. */
  lemma FreshRows(dealt: string)
    ensures RowsValid(Tiles(dealt), [], dealt)
  {
    TilesOrdered(dealt);
    var none: seq<Tile> := [];
    assert multiset(Tiles(dealt)) + multiset(none) == multiset(Tiles(dealt));
  }

  /** Sorting both rows back together by id gives the tiles as dealt. */
  lemma RestoreRows(scrambled: seq<Tile>, answer: seq<Tile>, dealt: string)
    requires RowsValid(scrambled, answer, dealt)
    ensures Sorting.SortBy(scrambled + answer, TileId) == Tiles(dealt)
    ensures RowsValid(Tiles(dealt), [], dealt)
  {
    var restored := Sorting.SortBy(scrambled + answer, TileId);
    TilesOrdered(dealt);
    Sorting.SortedUnique(Tiles(dealt), restored, TileId);
    FreshRows(dealt);
  }

  /** Moving a scrambled tile to the end of the answer row keeps every tile once. */
  lemma MoveToAnswer(scrambled: seq<Tile>, answer: seq<Tile>, dealt: string, t: Tile)
    requires RowsValid(scrambled, answer, dealt) && t in scrambled
    ensures RowsValid(Sorting.RemoveKey(scrambled, TileId, t.id), answer + [t], dealt)
    ensures multiset(Sorting.RemoveKey(scrambled, TileId, t.id)) == multiset(scrambled) - multiset{t}
  {
    DistinctIdsKeys(scrambled);
    Sorting.RemoveKeyRemovesOne(scrambled, TileId, t);
    Sorting.RemoveKeyDistinct(scrambled, TileId, t.id);
    DistinctIdsKeys(Sorting.RemoveKey(scrambled, TileId, t.id));
  }

  /** Moving an answer tile to the end of the scrambled row keeps every tile once. */
  lemma MoveToScrambled(scrambled: seq<Tile>, answer: seq<Tile>, dealt: string, t: Tile)
    requires RowsValid(scrambled, answer, dealt) && t in answer
    ensures RowsValid(scrambled + [t], Sorting.RemoveKey(answer, TileId, t.id), dealt)
    ensures multiset(Sorting.RemoveKey(answer, TileId, t.id)) == multiset(answer) - multiset{t}
  {
    DistinctIdsKeys(answer);
    Sorting.RemoveKeyRemovesOne(answer, TileId, t);
    Sorting.RemoveKeyDistinct(answer, TileId, t.id);
    var answer' := Sorting.RemoveKey(answer, TileId, t.id);
    DistinctIdsKeys(answer');
    var row := scrambled + [t];
    AppendDistinct(scrambled, t);
    AppendDisjoint(scrambled, answer', t);
    assert multiset(row) + multiset(answer') == multiset(scrambled) + multiset(answer);
  }

  /** Appending a tile whose id the row lacks keeps the row's ids distinct. */
  lemma AppendDistinct(row: seq<Tile>, t: Tile)
    requires DistinctIds(row) && forall x :: x in row ==> x.id != t.id
    ensures DistinctIds(row + [t])
  {
    var row' := row + [t];
    forall i, j | 0 <= i < j < |row'| ensures row'[i].id != row'[j].id {
      if j == |row| {
        assert row'[i] in row;
      }
    }
  }

  /** A row and a tile both disjoint from another row stay disjoint from it together. */
  lemma AppendDisjoint(row: seq<Tile>, other: seq<Tile>, t: Tile)
    requires Disjoint(row, other) && forall y :: y in other ==> y.id != t.id
    ensures Disjoint(row + [t], other)
  {
    forall x, y | x in row + [t] && y in other ensures x.id != y.id {
      if x != t {
        assert x in row;
      }
    }
  }

  // -------------------------------------------------------------------- levels

  /** The words of the level, in pool order. */
  function OfLevel(all: seq<WordScrambleQuestion>, level: int): (r: seq<WordScrambleQuestion>)
    ensures |r| <= |all|
    ensures forall w :: w in r <==> w in all && w.level == level
  {
    if all == [] then []
    else (if all[0].level == level then [all[0]] else []) + OfLevel(all[1..], level)
  }

  /** A level's words: the first five words of the pool whose level is the level. */
  function LevelWords(all: seq<WordScrambleQuestion>, level: int): (r: seq<WordScrambleQuestion>)
    ensures |r| <= WordsPerLevel
  {
    var m := OfLevel(all, level);
    if |m| <= WordsPerLevel then m else m[..WordsPerLevel]
  }

  /** A level's words are words of the pool at that level; fewer than five means all of them. */
  lemma LevelWordsOfLevel(all: seq<WordScrambleQuestion>, level: int)
    ensures forall w :: w in LevelWords(all, level) ==> w in all && w.level == level
    ensures |LevelWords(all, level)| < WordsPerLevel ==>
              forall w :: w in all && w.level == level ==> w in LevelWords(all, level)
  {
    var m := OfLevel(all, level);
    if |m| > WordsPerLevel {
      forall w | w in m[..WordsPerLevel] ensures w in m {
        var i :| 0 <= i < WordsPerLevel && m[..WordsPerLevel][i] == w;
        assert m[i] == w;
      }
    }
  }

  /**
   * The unlock rule at the end of a level: one more level, up to the tenth,
   * exactly when the level scored at least 30 and was the highest unlocked.
   */
  function NextUnlocked(unlocked: int, selected: int, levelScore: int): (r: int)
    requires 1 <= unlocked <= TotalLevels
    ensures unlocked <= r <= TotalLevels
    ensures r == unlocked || r == unlocked + 1
    ensures r == unlocked + 1 <==> levelScore >= ScoreToUnlock && selected == unlocked && unlocked < TotalLevels
  {
    if levelScore >= ScoreToUnlock && selected == unlocked then
      if unlocked + 1 < TotalLevels then unlocked + 1 else TotalLevels
    else unlocked
  }

  // ---------------------------------------------------------------------- game

  class Game {
    var unlockedLevel: int
    var totalScore: nat
    var allWords: seq<WordScrambleQuestion>
    var view: View
    var selectedLevel: int
    var levelWords: seq<WordScrambleQuestion>
    var currentWordIndex: nat
    var levelScore: nat
    var scrambledLetters: seq<Tile>
    var answerSlots: seq<Tile>
    var wrongAttempts: nat
    var feedback: Feedback
    var isLoading: bool
    var error: bool
    /** The scrambled word the current tiles were dealt from. */
    ghost var dealt: string

    predicate HasWord()
      reads this
    {
      view == Playing && levelWords != [] && currentWordIndex < |levelWords|
    }

    /** The tiles of the current word: the two rows share out the dealt tiles, each once. */
    ghost predicate TilesValid()
      reads this
      requires HasWord()
    {
      var word := levelWords[currentWordIndex].word;
      && |dealt| == |word| && multiset(dealt) == multiset(word) && (dealt == word <==> Uniform(word))
      && RowsValid(scrambledLetters, answerSlots, dealt)
    }

    ghost predicate Valid()
      reads this
    {
      && 1 <= unlockedLevel <= TotalLevels
      && (view != Levels ==> 1 <= selectedLevel <= unlockedLevel)
      && |levelWords| <= WordsPerLevel
      && currentWordIndex <= |levelWords|
      && levelScore <= PointsPerWord * currentWordIndex + (if view == Playing && feedback == Correct then PointsPerWord else 0)
      && (view == LevelSummary ==> currentWordIndex == |levelWords|)
      && (view == LevelSummary && levelScore >= ScoreToUnlock && selectedLevel < TotalLevels ==> selectedLevel < unlockedLevel)
      && (view == Playing && levelWords != [] ==> currentWordIndex < |levelWords| && TilesValid())
      && (isLoading ==> !error)
    }

    /**
     * A level is being played: the levels are in range, the index is within
     * the level's words and the score within the words answered so far.
     */
    ghost predicate InLevel()
      reads this
    {
      && 1 <= unlockedLevel <= TotalLevels && 1 <= selectedLevel <= unlockedLevel
      && view == Playing && currentWordIndex <= |levelWords| <= WordsPerLevel
      && levelScore <= PointsPerWord * currentWordIndex && (isLoading ==> !error)
    }

    /** The hint is shown after two wrong answers unless the answer is correct. */
    predicate HintShown()
      reads this
    {
      wrongAttempts >= 2 && feedback != Correct
    }

    /** The level summary offers the next level after 30 points below level 10. */
    predicate NextLevelOffered()
      reads this
    {
      levelScore >= ScoreToUnlock && selectedLevel < TotalLevels
    }

    constructor ()
      ensures Valid() && view == Levels && isLoading && unlockedLevel == 1 && totalScore == 0
    {
      unlockedLevel := 1;
      totalScore := 0;
      allWords := [];
      view := Levels;
      selectedLevel := 0;
      levelWords := [];
      currentWordIndex := 0;
      levelScore := 0;
      scrambledLetters := [];
      answerSlots := [];
      wrongAttempts := 0;
      feedback := NoFeedback;
      isLoading := true;
      error := false;
      dealt := [];
    }

    /** The fetch on mount: a failed request (None) is an error, any list becomes the pool. */
    method FetchAllWords(fetched: Option<seq<WordScrambleQuestion>>)
      requires Valid() && isLoading
      modifies this`isLoading, this`error, this`allWords
      ensures Valid() && !isLoading
      ensures error <==> fetched.None?
      ensures fetched.Some? ==> allWords == fetched.value
    {
      if fetched.None? {
        error := true;
      } else {
        allWords := fetched.value;
      }
      isLoading := false;
    }

    /**
     * setupWord past the last word: the level's score is added to the total,
     * the unlock rule applied, the level score reported and the summary shown.
     */
    method FinishLevel() returns (reported: Option<int>)
      requires InLevel() && currentWordIndex == |levelWords|
      modifies this`totalScore, this`unlockedLevel, this`view
      ensures Valid()
      ensures totalScore == old(totalScore + levelScore)
      ensures unlockedLevel == NextUnlocked(old(unlockedLevel), selectedLevel, levelScore)
      ensures reported == Some(levelScore) && view == LevelSummary
    {
      var newTotalScore := totalScore + levelScore;
      var newUnlockedLevel := NextUnlocked(unlockedLevel, selectedLevel, levelScore);
      totalScore, unlockedLevel := newTotalScore, newUnlockedLevel;
      reported := Some(levelScore);
      view := LevelSummary;
    }

    /**
     * setupWord for a word of the level: the word is scrambled into fresh
     * tiles (a word of one repeated letter is dealt as it is) with an empty answer row, no wrong attempts and no feedback.
     */
    method DealWord(attempts: seq<seq<nat>>)
      requires InLevel() && currentWordIndex < |levelWords|
      requires Dealable(levelWords[currentWordIndex].word, attempts)
      modifies this`scrambledLetters, this`answerSlots, this`wrongAttempts, this`feedback, this`dealt
      ensures Valid()
      ensures var word := levelWords[currentWordIndex].word;
              && (Chars(scrambledLetters) == word <==> Uniform(word)) && multiset(Chars(scrambledLetters)) == multiset(word)
              && (forall i :: 0 <= i < |scrambledLetters| ==> scrambledLetters[i].id == i)
      ensures answerSlots == [] && wrongAttempts == 0 && feedback == NoFeedback && !HintShown()
    {
      var currentWord := levelWords[currentWordIndex].word;
      var scrambled := ScrambleOrKeep(currentWord, attempts);
      var s := scrambled.value;
      assert Chars(Tiles(s)) == s;
      FreshRows(s);
      scrambledLetters := Tiles(s);
      answerSlots := [];
      wrongAttempts := 0;
      feedback := NoFeedback;
      dealt := s;
    }

    /**
     * setupLevel: the level's words are the first five of its level, and
     * play starts at the first word with score 0.  A level without words
     * shows the game view with no word.
     */
    method SetupLevel(level: int)
      requires 1 <= level <= unlockedLevel <= TotalLevels && (isLoading ==> !error)
      modifies this`levelWords, this`selectedLevel, this`currentWordIndex, this`levelScore, this`view
      ensures levelWords == LevelWords(allWords, level) && selectedLevel == level
      ensures currentWordIndex == 0 && levelScore == 0 && view == Playing
      ensures levelWords == [] ==> Valid()
    {
      var wordsForLevel := LevelWords(allWords, level);
      levelWords, selectedLevel, currentWordIndex, levelScore, view := wordsForLevel, level, 0, 0, Playing;
    }

    /** A level button: only unlocked levels can be started. */
    method SelectLevel(level: int, attempts: seq<seq<nat>>)
      requires Valid() && view == Levels && !isLoading && !error && 1 <= level <= unlockedLevel
      requires LevelWords(allWords, level) != [] ==> Dealable(LevelWords(allWords, level)[0].word, attempts)
      modifies this`view, this`selectedLevel, this`levelWords, this`currentWordIndex, this`levelScore
      modifies this`scrambledLetters, this`answerSlots, this`wrongAttempts, this`feedback, this`dealt
      ensures Valid() && view == Playing && selectedLevel == level && levelScore == 0
      ensures levelWords == LevelWords(allWords, level) && unlockedLevel == old(unlockedLevel)
    {
      SetupLevel(level);
      if levelWords != [] {
        DealWord(attempts);
      }
    }

    /** Retry Level on the summary: the same level from its first word. */
    method RetryLevel(attempts: seq<seq<nat>>)
      requires Valid() && view == LevelSummary
      requires LevelWords(allWords, selectedLevel) != [] ==>
                 Dealable(LevelWords(allWords, selectedLevel)[0].word, attempts)
      modifies this`view, this`selectedLevel, this`levelWords, this`currentWordIndex, this`levelScore
      modifies this`scrambledLetters, this`answerSlots, this`wrongAttempts, this`feedback, this`dealt
      ensures Valid() && view == Playing && selectedLevel == old(selectedLevel) && levelScore == 0
    {
      SetupLevel(selectedLevel);
      if levelWords != [] {
        DealWord(attempts);
      }
    }

    /** Next Level on the summary, offered after 30 points below level 10; the level is unlocked. */
    method NextLevel(attempts: seq<seq<nat>>)
      requires Valid() && view == LevelSummary && NextLevelOffered()
      requires LevelWords(allWords, selectedLevel + 1) != [] ==>
                 Dealable(LevelWords(allWords, selectedLevel + 1)[0].word, attempts)
      modifies this`view, this`selectedLevel, this`levelWords, this`currentWordIndex, this`levelScore
      modifies this`scrambledLetters, this`answerSlots, this`wrongAttempts, this`feedback, this`dealt
      ensures Valid() && view == Playing && selectedLevel == old(selectedLevel) + 1 <= unlockedLevel
    {
      SetupLevel(selectedLevel + 1);
      if levelWords != [] {
        DealWord(attempts);
      }
    }

    method BackToLevels()
      requires Valid() && view == LevelSummary
      modifies this`view
      ensures Valid() && view == Levels
    {
      view := Levels;
    }

    /** handleLetterClick (`filter(l => l.id !== letter.id)` and an append): the tile leaves the scrambled row and is appended to the answer row. */
    method LetterClick(tile: Tile)
      requires Valid() && HasWord() && feedback != Incorrect && tile in scrambledLetters
      modifies this`scrambledLetters, this`answerSlots
      ensures Valid()
      ensures scrambledLetters == Sorting.RemoveKey(old(scrambledLetters), TileId, tile.id) && answerSlots == old(answerSlots) + [tile]
      ensures multiset(scrambledLetters) == multiset(old(scrambledLetters)) - multiset{tile}
      ensures multiset(scrambledLetters) + multiset(answerSlots) == old(multiset(scrambledLetters) + multiset(answerSlots))
    {
      MoveToAnswer(scrambledLetters, answerSlots, dealt, tile);
      scrambledLetters := Sorting.RemoveKey(scrambledLetters, TileId, tile.id);
      answerSlots := answerSlots + [tile];
    }

    /** handleAnswerSlotClick: the tile leaves the answer row and is appended to the scrambled row. */
    method SlotClick(tile: Tile)
      requires Valid() && HasWord() && feedback != Incorrect && tile in answerSlots
      modifies this`scrambledLetters, this`answerSlots
      ensures Valid()
      ensures answerSlots == Sorting.RemoveKey(old(answerSlots), TileId, tile.id) && scrambledLetters == old(scrambledLetters) + [tile]
      ensures multiset(answerSlots) == multiset(old(answerSlots)) - multiset{tile}
      ensures multiset(scrambledLetters) + multiset(answerSlots) == old(multiset(scrambledLetters) + multiset(answerSlots))
    {
      MoveToScrambled(scrambledLetters, answerSlots, dealt, tile);
      answerSlots := Sorting.RemoveKey(answerSlots, TileId, tile.id);
      scrambledLetters := scrambledLetters + [tile];
    }

    /**
     * handleCheck: nothing happens unless the answer row is as long as the
     * word; then the spelled answer is compared with the word ignoring case.
     */
    method Check()
      requires Valid() && HasWord() && feedback == NoFeedback
      modifies this`feedback, this`levelScore, this`wrongAttempts
      ensures Valid()
      ensures |answerSlots| != |levelWords[currentWordIndex].word| ==>
                feedback == NoFeedback && levelScore == old(levelScore) && wrongAttempts == old(wrongAttempts)
      ensures |answerSlots| == |levelWords[currentWordIndex].word| ==>
                && (feedback == Correct <==> Text.EqualsIgnoringCase(Chars(answerSlots), levelWords[currentWordIndex].word))
                && feedback != NoFeedback
                && (feedback == Correct ==> levelScore == old(levelScore) + PointsPerWord && wrongAttempts == old(wrongAttempts))
                && (feedback == Incorrect ==> levelScore == old(levelScore) && wrongAttempts == old(wrongAttempts) + 1)
    {
      var word := levelWords[currentWordIndex].word;
      if |answerSlots| != |word| {
        return;
      }
      var userAnswer := Chars(answerSlots);
      if Text.Lower(userAnswer) == Text.Lower(word) {
        feedback := Correct;
        levelScore := levelScore + PointsPerWord;
      } else {
        feedback := Incorrect;
        wrongAttempts := wrongAttempts + 1;
      }
    }

    /**
     * setupWord for the current index, as the effect on the index runs it:
     * past the last word the level finishes, otherwise the word is dealt.
     */
    method SetupWord(attempts: seq<seq<nat>>) returns (reported: Option<int>)
      requires InLevel()
      requires currentWordIndex < |levelWords| ==> Dealable(levelWords[currentWordIndex].word, attempts)
      modifies this`totalScore, this`unlockedLevel, this`view
      modifies this`scrambledLetters, this`answerSlots, this`wrongAttempts, this`feedback, this`dealt
      ensures Valid()
      ensures currentWordIndex == |levelWords| ==>
                && view == LevelSummary && reported == Some(levelScore)
                && totalScore == old(totalScore) + levelScore
                && unlockedLevel == NextUnlocked(old(unlockedLevel), selectedLevel, levelScore)
      ensures currentWordIndex < |levelWords| ==>
                && view == Playing && reported.None? && feedback == NoFeedback && wrongAttempts == 0
                && answerSlots == [] && totalScore == old(totalScore) && unlockedLevel == old(unlockedLevel)
    {
      if currentWordIndex >= |levelWords| {
        reported := FinishLevel();
      } else {
        DealWord(attempts);
        reported := None;
      }
    }

    /** The deferred step after a correct answer: the index moves on and the effect sets up that word. */
    method AdvanceWord(attempts: seq<seq<nat>>) returns (reported: Option<int>)
      requires Valid() && HasWord() && feedback == Correct
      requires currentWordIndex + 1 < |levelWords| ==> Dealable(levelWords[currentWordIndex + 1].word, attempts)
      modifies this`unlockedLevel, this`totalScore, this`view, this`currentWordIndex
      modifies this`scrambledLetters, this`answerSlots, this`wrongAttempts, this`feedback, this`dealt
      ensures Valid() && currentWordIndex == old(currentWordIndex) + 1
      ensures currentWordIndex == |levelWords| ==>
                && view == LevelSummary && reported == Some(levelScore)
                && levelScore <= PointsPerWord * |levelWords|
                && totalScore == old(totalScore) + levelScore
                && unlockedLevel == NextUnlocked(old(unlockedLevel), selectedLevel, levelScore)
      ensures currentWordIndex < |levelWords| ==>
                view == Playing && reported.None? && feedback == NoFeedback && wrongAttempts == 0 && answerSlots == []
    {
      currentWordIndex := currentWordIndex + 1;
      reported := SetupWord(attempts);
    }

    /**
     * The deferred step after a wrong answer: feedback cleared and every
     * answer tile back in the scrambled row, ordered by id, which restores
     * the row as it was dealt.
     */
    method RestoreTiles()
      requires Valid() && HasWord() && feedback == Incorrect
      modifies this`feedback, this`scrambledLetters, this`answerSlots
      ensures Valid() && feedback == NoFeedback && answerSlots == []
      ensures scrambledLetters == Sorting.SortBy(old(scrambledLetters) + old(answerSlots), TileId)
      ensures scrambledLetters == Tiles(dealt)
    {
      var restored := Sorting.SortBy(scrambledLetters + answerSlots, TileId);
      RestoreRows(scrambledLetters, answerSlots, dealt);
      feedback := NoFeedback;
      scrambledLetters := restored;
      answerSlots := [];
    }
  }
}
