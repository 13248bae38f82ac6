/**
 * Letter Memory: three levels of a pairs game.  A level deals every
 * upper-cased letter of a secret word twice, shuffled, face down; two turned
 * cards with equal letters mark that letter matched, unequal ones are turned
 * back after a delay, and a level whose cards are all matched earns its
 * points.
 */
module LetterMemory {
  import opened GameTypes
  import Shuffle
  import Text

  datatype Card = Card(id: int, letter: char, isFlipped: bool, isMatched: bool)

  datatype View = Instructions | Playing | LevelSummary | GameSummary

  const MaxLevel: int := 3

  predicate IsLevel(level: int)
  {
    1 <= level <= MaxLevel
  }

  /** LEVEL_CONFIG's word lengths: 4, 6 and 8 letters. */
  function WordLength(level: int): nat
    requires IsLevel(level)
  {
    if level == 1 then 4 else if level == 2 then 6 else 8
  }

  /** LEVEL_CONFIG's points: 10, 20 and 30. */
  function LevelPoints(level: int): nat
    requires IsLevel(level)
  {
    if level == 1 then 10 else if level == 2 then 20 else 30
  }

  /** The points of levels 1 to `level`. */
  function Cumulative(level: int): (total: nat)
    requires 0 <= level <= MaxLevel
    ensures total <= 60
    ensures level == MaxLevel ==> total == 60
  {
    if level == 0 then 0 else Cumulative(level - 1) + LevelPoints(level)
  }

  /** The first word of the pool for the level with the level's length, if any. */
  function FindWord(pool: seq<LetterMemoryQuestion>, level: int): (r: Option<LetterMemoryQuestion>)
    requires IsLevel(level)
    ensures r.Some? ==> r.value in pool && r.value.level == level && |r.value.word| == WordLength(level)
    ensures r.None? <==> forall w :: w in pool ==> !(w.level == level && |w.word| == WordLength(level))
  {
    if pool == [] then None
    else if pool[0].level == level && |pool[0].word| == WordLength(level) then Some(pool[0])
    else FindWord(pool[1..], level)
  }

  /** The word found is the first pool word that fits the level, as `find` returns. */
  lemma {:induction false} FindWordFirst(pool: seq<LetterMemoryQuestion>, level: int)
    requires IsLevel(level)
    ensures FindWord(pool, level).Some? ==>
              exists i :: 0 <= i < |pool| && pool[i] == FindWord(pool, level).value
                          && forall j :: 0 <= j < i ==> !(pool[j].level == level && |pool[j].word| == WordLength(level))
  {
    if pool != [] && !(pool[0].level == level && |pool[0].word| == WordLength(level)) {
      FindWordFirst(pool[1..], level);
      if FindWord(pool, level).Some? {
        var i :| 0 <= i < |pool[1..]| && pool[1..][i] == FindWord(pool, level).value
                 && forall j :: 0 <= j < i ==> !(pool[1..][j].level == level && |pool[1..][j].word| == WordLength(level));
        assert pool[i + 1] == FindWord(pool, level).value;
        assert forall j :: 0 < j <= i ==> pool[j] == pool[1..][j - 1];
      }
    }
  }

  /** Two card rows with the same ids and letters in the same places: only flags differ. */
  predicate SameFaces(a: seq<Card>, b: seq<Card>)
  {
    |a| == |b| && forall i :: 0 <= i < |a| ==> a[i].id == b[i].id && a[i].letter == b[i].letter
  }

  predicate AllMatched(cards: seq<Card>)
  {
    forall i :: 0 <= i < |cards| ==> cards[i].isMatched
  }

  /** The click's update: the card with that id is turned face up, the rest unchanged. */
  function FlipCard(cards: seq<Card>, id: int): (r: seq<Card>)
    ensures SameFaces(cards, r)
    ensures forall i :: 0 <= i < |r| ==> r[i].isMatched == cards[i].isMatched
    ensures forall i :: 0 <= i < |r| ==> r[i].isFlipped == (cards[i].isFlipped || cards[i].id == id)
  {
    seq(|cards|, i requires 0 <= i < |cards| =>
      if cards[i].id == id then cards[i].(isFlipped := true) else cards[i])
  }

  /** A matching pair's update: every card carrying the letter is matched, not only the pair. */
  function MatchLetter(cards: seq<Card>, letter: char): (r: seq<Card>)
    ensures SameFaces(cards, r)
    ensures forall i :: 0 <= i < |r| ==> r[i].isFlipped == cards[i].isFlipped
    ensures forall i :: 0 <= i < |r| ==> r[i].isMatched == (cards[i].isMatched || cards[i].letter == letter)
  {
    seq(|cards|, i requires 0 <= i < |cards| =>
      if cards[i].letter == letter then cards[i].(isMatched := true) else cards[i])
  }

  /** A mismatch's deferred update: every unmatched card is turned face down. */
  function UnflipUnmatched(cards: seq<Card>): (r: seq<Card>)
    ensures SameFaces(cards, r)
    ensures forall i :: 0 <= i < |r| ==> r[i].isMatched == cards[i].isMatched
    ensures forall i :: 0 <= i < |r| ==> r[i].isFlipped == (cards[i].isFlipped && cards[i].isMatched)
  {
    seq(|cards|, i requires 0 <= i < |cards| =>
      if !cards[i].isMatched then cards[i].(isFlipped := false) else cards[i])
  }

  /** The letters of a row of cards, in order. */
  function Letters(cards: seq<Card>): (ls: seq<char>)
    ensures |ls| == |cards| && forall i :: 0 <= i < |cards| ==> ls[i] == cards[i].letter
  {
    seq(|cards|, i requires 0 <= i < |cards| => cards[i].letter)
  }

  /** Rows with the same faces carry the same letters. */
  lemma SameFacesLetters(a: seq<Card>, b: seq<Card>)
    requires SameFaces(a, b)
    ensures Letters(a) == Letters(b)
  {
  }

  /** The cards of a level: the shuffled letters, ids 0 to n-1, face down and unmatched. */
  function FaceDown(letters: seq<char>): (cards: seq<Card>)
    ensures |cards| == |letters| && Letters(cards) == letters
    ensures forall i :: 0 <= i < |cards| ==> cards[i].id == i && !cards[i].isFlipped && !cards[i].isMatched
  {
    seq(|letters|, i requires 0 <= i < |letters| => Card(i, letters[i], false, false))
  }

  /**
   * A row of cards as dealt (ids 0 to n-1, the dealt letters in order) and
   * the pending turned cards: at most two, each a face-up card of the row
   * recorded with its letter, and two different cards when there are two.
   */
  ghost predicate RowValid(cards: seq<Card>, turned: seq<Card>, dealt: seq<char>)
  {
    && (forall i :: 0 <= i < |cards| ==> cards[i].id == i)
    && Letters(cards) == dealt
    && |turned| <= 2
    && (forall k :: 0 <= k < |turned| ==>
          && 0 <= turned[k].id < |cards|
          && cards[turned[k].id].isFlipped
          && turned[k].letter == cards[turned[k].id].letter)
    && (|turned| == 2 ==> turned[0].id != turned[1].id)
  }

  /** A freshly dealt row has no turned cards. */
  lemma FreshRow(letters: seq<char>)
    ensures RowValid(FaceDown(letters), [], letters)
  {
  }

  /** A level's deal: a valid unfinished row with no turned cards, holding every letter of the word twice. */
  lemma FreshDeal(letters: seq<char>, draws: seq<nat>)
    requires |letters| > 0 && Shuffle.ValidDraws(draws, 2 * |letters|)
    ensures var shuffled := Shuffle.FisherYates(letters + letters, draws);
            var cards := FaceDown(shuffled);
            && RowValid(cards, [], shuffled) && cards != [] && !AllMatched(cards)
            && multiset(Letters(cards)) == multiset(letters) + multiset(letters)
  {
    var shuffled := Shuffle.FisherYates(letters + letters, draws);
    FreshRow(shuffled);
    assert !FaceDown(shuffled)[0].isMatched;
  }

  /** Turning up a face-down card keeps the row valid with the card added to the turned ones. */
  lemma FlipKeepsRow(cards: seq<Card>, turned: seq<Card>, dealt: seq<char>, i: nat)
    requires RowValid(cards, turned, dealt) && i < |cards| && !cards[i].isFlipped && |turned| < 2
    ensures RowValid(FlipCard(cards, i), turned + [cards[i]], dealt)
  {
    SameFacesLetters(cards, FlipCard(cards, i));
  }

  /** Matching a letter, with the turned cards cleared, keeps the row valid. */
  lemma MatchKeepsRow(cards: seq<Card>, turned: seq<Card>, dealt: seq<char>, letter: char)
    requires RowValid(cards, turned, dealt)
    ensures RowValid(MatchLetter(cards, letter), [], dealt)
  {
    SameFacesLetters(cards, MatchLetter(cards, letter));
  }

  /** Turning down the unmatched cards, with the turned cards cleared, keeps the row valid. */
  lemma UnflipKeepsRow(cards: seq<Card>, turned: seq<Card>, dealt: seq<char>)
    requires RowValid(cards, turned, dealt)
    ensures RowValid(UnflipUnmatched(cards), [], dealt)
  {
    SameFacesLetters(cards, UnflipUnmatched(cards));
  }

  /**
   * The level's progress: the total is the points of the levels before
   * plus this level's once awarded; a fully matched row has been awarded;
   * play goes on only on an unfinished row; the summaries follow a fully
   * matched row, the game summary only at the last level.
   */
  ghost predicate ProgressValid(view: View, level: int, totalScore: nat, awarded: bool, cards: seq<Card>)
  {
    && IsLevel(level)
    && totalScore == Cumulative(level - 1) + (if awarded then LevelPoints(level) else 0)
    && (cards != [] && AllMatched(cards) ==> awarded)
    && (view == Playing ==> !awarded && cards != [] && !AllMatched(cards))
    && (view == LevelSummary ==> awarded)
    && (view == GameSummary ==> awarded && level == MaxLevel)
    && (view == LevelSummary || view == GameSummary ==> cards != [] && AllMatched(cards))
    && (view == Instructions ==> !awarded && level == 1 && totalScore == 0)
  }

  /**
   * The state the level-complete effect runs in: as ProgressValid, except
   * that a fully matched row has not been awarded yet.
   */
  ghost predicate ProgressPending(view: View, level: int, totalScore: nat, awarded: bool, cards: seq<Card>)
  {
    && IsLevel(level) && view != Instructions
    && totalScore == Cumulative(level - 1) + (if awarded then LevelPoints(level) else 0)
    && (view == Playing ==> cards != [] && !awarded)
    && (view == LevelSummary || view == GameSummary ==> cards != [] && AllMatched(cards))
    && (cards != [] && AllMatched(cards) ==> !awarded)
  }

  class Game {
    var view: View
    var isLoading: bool
    var error: bool
    var wordPool: seq<LetterMemoryQuestion>
    var currentLevel: int
    var currentWord: Option<LetterMemoryQuestion>
    var cards: seq<Card>
    var flippedCards: seq<Card>
    var moves: nat
    var totalScore: nat
    /** Whether the current level's points have been added to the total. */
    ghost var awarded: bool
    /** The letters as dealt for the level. */
    ghost var dealt: seq<char>

    /** Two turned cards carry different letters (equal ones have been matched already). */
    predicate PairSettled()
      reads this
    {
      |flippedCards| == 2 ==> flippedCards[0].letter != flippedCards[1].letter
    }

    ghost predicate Valid()
      reads this
    {
      && RowValid(cards, flippedCards, dealt)
      && PairSettled()
      && ProgressValid(view, currentLevel, totalScore, awarded, cards)
      && (isLoading ==> !error)
    }

    constructor ()
      ensures Valid() && view == Instructions && isLoading && currentLevel == 1 && totalScore == 0
    {
      view := Instructions;
      isLoading := true;
      error := false;
      wordPool := [];
      currentLevel := 1;
      currentWord := None;
      cards := [];
      flippedCards := [];
      moves := 0;
      totalScore := 0;
      awarded := false;
      dealt := [];
    }

    /** fetchWords (on mount and Retry): an empty list is an error; otherwise it becomes the pool. */
    method FetchWords(fetched: seq<LetterMemoryQuestion>)
      requires Valid() && (isLoading || error)
      modifies this`isLoading, this`error, this`wordPool
      ensures Valid() && !isLoading
      ensures error <==> fetched == []
      ensures wordPool == if error then old(wordPool) else fetched
    {
      isLoading := false;
      error := false;
      if fetched == [] {
        error := true;
      } else {
        wordPool := fetched;
      }
    }

    /**
     * The level-complete effect, run after the cards or the level change:
     * when there are cards and all are matched, the level's points are added
     * and the level summary is shown.
     */
    method LevelCompleteCheck()
      requires RowValid(cards, flippedCards, dealt) && PairSettled() && (isLoading ==> !error)
      requires ProgressPending(view, currentLevel, totalScore, awarded, cards)
      modifies this`totalScore, this`view, this`awarded
      ensures Valid()
      ensures cards != [] && AllMatched(cards) ==>
                totalScore == old(totalScore) + LevelPoints(currentLevel) && view == LevelSummary
      ensures !(cards != [] && AllMatched(cards)) ==> totalScore == old(totalScore) && view == old(view)
    {
      if |cards| > 0 && forall i :: 0 <= i < |cards| ==> cards[i].isMatched {
        totalScore := totalScore + LevelPoints(currentLevel);
        view := LevelSummary;
        awarded := true;
      }
    }

    /**
     * setupLevel with the shuffle's draws: the level needs the pool's first
     * word for the level with the level's length, otherwise an error is set
     * and nothing else changes.  The word's upper-cased letters are dealt
     * twice each, shuffled, with ids 0 to 2n-1, face down and unmatched;
     * moves and turned cards are reset and the game view entered.
     */
    method SetupLevel(level: int, draws: seq<nat>)
      requires IsLevel(level)
      requires FindWord(wordPool, level).Some? ==>
                 Shuffle.ValidDraws(draws, 2 * |FindWord(wordPool, level).value.word|)
      modifies this`currentWord, this`cards, this`moves, this`flippedCards, this`view, this`error,
               this`dealt, this`awarded
      ensures FindWord(wordPool, level).None? ==>
                error && cards == old(cards) && view == old(view) && flippedCards == old(flippedCards)
                && dealt == old(dealt) && awarded == old(awarded) && moves == old(moves)
      ensures FindWord(wordPool, level).Some? ==>
                var letters := Text.Upper(FindWord(wordPool, level).value.word);
                && error == old(error)
                && currentWord == FindWord(wordPool, level)
                && cards == FaceDown(Shuffle.FisherYates(letters + letters, draws))
                && multiset(Letters(cards)) == multiset(letters) + multiset(letters)
                && moves == 0 && flippedCards == [] && view == Playing
                && RowValid(cards, flippedCards, dealt) && !awarded
                && cards != [] && !AllMatched(cards)
    {
      var wordForLevel := FindWord(wordPool, level);
      if wordForLevel.None? {
        error := true;
        return;
      }
      currentWord := wordForLevel;
      var letters := Text.Upper(wordForLevel.value.word);
      var pairedLetters := letters + letters;
      var shuffled := Shuffle.ShuffleFor(pairedLetters, draws);
      FreshDeal(letters, draws);
      cards := FaceDown(shuffled);
      dealt := shuffled;
      moves := 0;
      flippedCards := [];
      view := Playing;
      awarded := false;
    }

    /** Start Game on the instructions screen: the current level (1) is set up. */
    method StartGame(draws: seq<nat>)
      requires Valid() && view == Instructions && !isLoading && !error
      requires FindWord(wordPool, currentLevel).Some? ==>
                 Shuffle.ValidDraws(draws, 2 * |FindWord(wordPool, currentLevel).value.word|)
      modifies this`view, this`error, this`currentWord, this`cards, this`flippedCards, this`moves
      modifies this`awarded, this`dealt
      ensures Valid()
      ensures error <==> FindWord(wordPool, currentLevel).None?
      ensures !error ==> view == Playing && moves == 0 && flippedCards == [] && totalScore == 0
      ensures error ==> view == Instructions && cards == old(cards)
    {
      SetupLevel(currentLevel, draws);
    }

    /**
     * handleCardClick on card i, followed by the pair effect it triggers.
     * A face-up card, or a click while two cards are turned, is ignored.
     * Otherwise the card is turned up and added to the turned cards.
     */
    method CardClick(i: nat)
      requires Valid() && view == Playing && !error && !isLoading && i < |cards|
      modifies this`cards, this`flippedCards, this`moves, this`totalScore, this`view, this`awarded
      ensures Valid()
      ensures SameFaces(old(cards), cards)
      ensures old(cards[i].isFlipped) || |old(flippedCards)| == 2 ==>
                cards == old(cards) && flippedCards == old(flippedCards) && moves == old(moves)
                && totalScore == old(totalScore) && view == old(view)
      ensures !old(cards[i].isFlipped) && |old(flippedCards)| == 0 ==>
                cards == FlipCard(old(cards), i) && flippedCards == [old(cards[i])]
                && moves == old(moves) && view == Playing
      ensures !old(cards[i].isFlipped) && |old(flippedCards)| == 1 ==>
                moves == old(moves) + 1
      ensures !old(cards[i].isFlipped) && |old(flippedCards)| == 1
              && old(flippedCards[0].letter) == old(cards[i].letter) ==>
                && cards == MatchLetter(FlipCard(old(cards), i), old(cards[i].letter))
                && flippedCards == []
                && (AllMatched(cards) ==> totalScore == old(totalScore) + LevelPoints(currentLevel)
                                          && view == LevelSummary)
                && (!AllMatched(cards) ==> totalScore == old(totalScore) && view == Playing)
      ensures !old(cards[i].isFlipped) && |old(flippedCards)| == 1
              && old(flippedCards[0].letter) != old(cards[i].letter) ==>
                cards == FlipCard(old(cards), i) && flippedCards == old(flippedCards) + [old(cards[i])]
                && view == Playing
    {
      var clickedCard := cards[i];
      if clickedCard.isFlipped || |flippedCards| == 2 {
        return;
      }
      FlipKeepsRow(cards, flippedCards, dealt, i);
      var newFlippedCards := flippedCards + [clickedCard];
      cards := FlipCard(cards, clickedCard.id);
      flippedCards := newFlippedCards;
      PairEffect();
    }

    /**
     * The effect on the turned cards: with two turned, a move is counted;
     * equal letters match every card with that letter, clear the turned
     * cards and run the level-complete effect; unequal ones are left for the
     * deferred Unflip.
     */
    method PairEffect()
      requires RowValid(cards, flippedCards, dealt) && ProgressValid(view, currentLevel, totalScore, awarded, cards)
      requires view == Playing && !error && !isLoading
      modifies this`cards, this`flippedCards, this`moves, this`totalScore, this`view, this`awarded
      ensures Valid()
      ensures SameFaces(old(cards), cards)
      ensures |old(flippedCards)| != 2 ==>
                cards == old(cards) && flippedCards == old(flippedCards) && moves == old(moves) && view == Playing
      ensures |old(flippedCards)| == 2 ==> moves == old(moves) + 1
      ensures |old(flippedCards)| == 2 && old(flippedCards[0].letter) == old(flippedCards[1].letter) ==>
                && cards == MatchLetter(old(cards), old(flippedCards[0].letter))
                && flippedCards == []
                && (AllMatched(cards) ==> totalScore == old(totalScore) + LevelPoints(currentLevel)
                                          && view == LevelSummary)
                && (!AllMatched(cards) ==> totalScore == old(totalScore) && view == Playing)
      ensures |old(flippedCards)| == 2 && old(flippedCards[0].letter) != old(flippedCards[1].letter) ==>
                cards == old(cards) && flippedCards == old(flippedCards) && view == Playing
    {
      if |flippedCards| == 2 {
        moves := moves + 1;
        var firstCard, secondCard := flippedCards[0], flippedCards[1];
        if firstCard.letter == secondCard.letter {
          MatchKeepsRow(cards, flippedCards, dealt, firstCard.letter);
          cards := MatchLetter(cards, firstCard.letter);
          flippedCards := [];
          LevelCompleteCheck();
        }
      }
    }

    /** The deferred callback of a mismatch: every unmatched card is turned face down and the pair cleared. */
    method Unflip()
      requires Valid() && |flippedCards| == 2
      modifies this`cards, this`flippedCards
      ensures Valid()
      ensures cards == UnflipUnmatched(old(cards)) && flippedCards == []
    {
      UnflipKeepsRow(cards, flippedCards, dealt);
      cards := UnflipUnmatched(cards);
      flippedCards := [];
    }

    /**
     * handleNextLevel on a level summary.  Below level 3 the level goes up
     * and is set up (a missing word sets an error; the level-complete effect
     * then credits the new level's points, since the cards are still all
     * matched).  At level 3 the game ends and reports the total, which is
     * then always 60.
     */
    method NextLevel(draws: seq<nat>) returns (reported: Option<int>)
      requires Valid() && view == LevelSummary && !error && !isLoading
      requires currentLevel < MaxLevel && FindWord(wordPool, currentLevel + 1).Some? ==>
                 Shuffle.ValidDraws(draws, 2 * |FindWord(wordPool, currentLevel + 1).value.word|)
      modifies this`view, this`error, this`currentLevel, this`currentWord, this`cards
      modifies this`flippedCards, this`moves, this`totalScore, this`awarded, this`dealt
      ensures Valid()
      ensures old(currentLevel) == MaxLevel ==>
                reported == Some(totalScore) && totalScore == 60 && view == GameSummary
      ensures old(currentLevel) < MaxLevel ==>
                reported.None? && currentLevel == old(currentLevel) + 1
                && (error <==> FindWord(wordPool, currentLevel).None?)
                && (!error ==> view == Playing && moves == 0 && totalScore == old(totalScore))
    {
      var nextLevel := currentLevel + 1;
      reported := None;
      if nextLevel <= MaxLevel {
        currentLevel := nextLevel;
        awarded := false;
        assert totalScore == Cumulative(currentLevel - 1);
        SetupLevel(nextLevel, draws);
        assert ProgressPending(view, currentLevel, totalScore, awarded, cards);
        LevelCompleteCheck();
      } else {
        reported := Some(totalScore);
        view := GameSummary;
      }
    }

    /** handlePlayAgain on the game summary: level 1, total 0, and level 1 set up. */
    method PlayAgain(draws: seq<nat>)
      requires Valid() && view == GameSummary && !error && !isLoading
      requires FindWord(wordPool, 1).Some? ==> Shuffle.ValidDraws(draws, 2 * |FindWord(wordPool, 1).value.word|)
      modifies this`currentLevel, this`totalScore, this`awarded, this`currentWord, this`cards, this`moves
      modifies this`flippedCards, this`view, this`error, this`dealt
      ensures Valid()
      ensures wordPool == old(wordPool) && isLoading == old(isLoading)
      ensures currentLevel == 1 && (error <==> FindWord(wordPool, 1).None?)
      ensures !error ==>
                var letters := Text.Upper(FindWord(wordPool, 1).value.word);
                && currentWord == FindWord(wordPool, 1)
                && cards == FaceDown(Shuffle.FisherYates(letters + letters, draws))
                && totalScore == 0 && view == Playing && moves == 0 && flippedCards == [] && !awarded
    {
      currentLevel := 1;
      totalScore := 0;
      awarded := false;
      SetupLevel(1, draws);
      assert Cumulative(0) == 0;
      LevelCompleteCheck();
    }
  }
}
