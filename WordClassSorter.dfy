/**
 * Word Class Sorter: each round deals a set of words into an "unsorted"
 * area; the player drags every word into one of four part-of-speech boxes
 * and submits.  A submitted round scores one point per word lying in the box
 * of its own part of speech, and after a pause the next round is dealt.
 */
module WordClassSorter {
  import opened GameTypes

  /** The boxes in their display (and scoring) order. */
  const Categories: seq<PartOfSpeech> := [Noun, Verb, Adjective, Adverb]

  /** The points on offer in the summary: four words per round. */
  const MaxScore: nat := TotalQuestions * 4

  /** Where a word can lie: the unsorted area or one of the four boxes. */
  datatype Bucket = Unsorted | Box(category: PartOfSpeech)

  /** The five lists of placed words (WordPlacements). */
  datatype Placements = Placements(
    unsorted: seq<WordToSort>,
    noun: seq<WordToSort>,
    verb: seq<WordToSort>,
    adjective: seq<WordToSort>,
    adverb: seq<WordToSort>)

  function Get(p: Placements, b: Bucket): seq<WordToSort>
  {
    match b
    case Unsorted => p.unsorted
    case Box(Noun) => p.noun
    case Box(Verb) => p.verb
    case Box(Adjective) => p.adjective
    case Box(Adverb) => p.adverb
  }

  function Put(p: Placements, b: Bucket, ws: seq<WordToSort>): (r: Placements)
    ensures Get(r, b) == ws
    ensures forall c :: c != b ==> Get(r, c) == Get(p, c)
  {
    match b
    case Unsorted => p.(unsorted := ws)
    case Box(Noun) => p.(noun := ws)
    case Box(Verb) => p.(verb := ws)
    case Box(Adjective) => p.(adjective := ws)
    case Box(Adverb) => p.(adverb := ws)
  }

  /** All placed words, wherever they lie. */
  function Contents(p: Placements): multiset<WordToSort>
  {
    multiset(p.unsorted) + multiset(p.noun) + multiset(p.verb) + multiset(p.adjective) + multiset(p.adverb)
  }

  /** Replacing one bucket's list replaces its share of the contents. */
  lemma ContentsPut(p: Placements, b: Bucket, ws: seq<WordToSort>)
    ensures multiset(Get(p, b)) <= Contents(p)
    ensures Contents(Put(p, b, ws)) + multiset(Get(p, b)) == Contents(p) + multiset(ws)
  {
  }

  /** resetPlacements: the round's words all unsorted, every box empty. */
  function ResetPlacements(words: seq<WordToSort>): (r: Placements)
    ensures Get(r, Unsorted) == words
    ensures forall c: PartOfSpeech :: Get(r, Box(c)) == []
    ensures Contents(r) == multiset(words)
  {
    Placements(words, [], [], [], [])
  }

  /** `filter(w => w.word !== word)`: the list without any entry spelled `word`. */
  function RemoveWord(ws: seq<WordToSort>, word: string): (r: seq<WordToSort>)
    ensures |r| <= |ws|
    ensures forall x :: x in r <==> x in ws && x.word != word
  {
    if ws == [] then []
    else (if ws[0].word == word then [] else [ws[0]]) + RemoveWord(ws[1..], word)
  }

  /** No two entries of the list are spelled alike. */
  predicate UniqueWords(ws: seq<WordToSort>)
  {
    forall i, j :: 0 <= i < j < |ws| ==> ws[i].word != ws[j].word
  }

  /** Removing a listed word's spelling removes at least that entry. */
  lemma {:induction false} RemoveWordShrinks(ws: seq<WordToSort>, w: WordToSort)
    requires w in ws
    ensures multiset(RemoveWord(ws, w.word)) + multiset{w} <= multiset(ws)
  {
    assert ws == [ws[0]] + ws[1..];
    if ws[0] == w {
      assert multiset(RemoveWord(ws, w.word)) == multiset(RemoveWord(ws[1..], w.word));
      assert multiset(RemoveWord(ws[1..], w.word)) <= multiset(ws[1..]) by {
        RemoveWordSubset(ws[1..], w.word);
      }
    } else {
      RemoveWordShrinks(ws[1..], w);
    }
  }

  lemma {:induction false} RemoveWordSubset(ws: seq<WordToSort>, word: string)
    ensures multiset(RemoveWord(ws, word)) <= multiset(ws)
  {
    if ws != [] {
      assert ws == [ws[0]] + ws[1..];
      RemoveWordSubset(ws[1..], word);
    }
  }

  /** With distinct spellings, removing a listed word's spelling removes exactly that entry. */
  lemma {:induction false} RemoveWordExact(ws: seq<WordToSort>, w: WordToSort)
    requires UniqueWords(ws) && w in ws
    ensures multiset(RemoveWord(ws, w.word)) + multiset{w} == multiset(ws)
  {
    assert ws == [ws[0]] + ws[1..];
    if ws[0] == w {
      assert forall x :: x in ws[1..] ==> x.word != w.word;
      RemoveWordNone(ws[1..], w.word);
    } else {
      assert UniqueWords(ws[1..]);
      RemoveWordExact(ws[1..], w);
    }
  }

  lemma {:induction false} RemoveWordNone(ws: seq<WordToSort>, word: string)
    requires forall x :: x in ws ==> x.word != word
    ensures RemoveWord(ws, word) == ws
  {
    if ws != [] {
      assert ws == [ws[0]] + ws[1..];
      RemoveWordNone(ws[1..], word);
    }
  }

  /**
   * handleDrop: a drop on the bucket the word came from changes nothing;
   * otherwise the word's spelling leaves the source and the word is
   * appended to the target, every other bucket staying as it was.
   */
  function MoveWord(p: Placements, word: WordToSort, source: Bucket, target: Bucket): (r: Placements)
    ensures source == target ==> r == p
    ensures source != target ==>
              && Get(r, source) == RemoveWord(Get(p, source), word.word)
              && Get(r, target) == Get(p, target) + [word]
              && forall b :: b != source && b != target ==> Get(r, b) == Get(p, b)
  {
    if source == target then p
    else
      var removed := Put(p, source, RemoveWord(Get(p, source), word.word));
      Put(removed, target, Get(removed, target) + [word])
  }

  /** Cancelling a common part of two equal sums. */
  lemma Cancel<T>(a: multiset<T>, b: multiset<T>, c: multiset<T>, d: multiset<T>)
    requires a + b == c + d
    ensures d <= b ==> a <= c
    ensures d == b ==> a == c
  {
    forall x ensures a[x] + b[x] == c[x] + d[x] {
      assert (a + b)[x] == (c + d)[x];
    }
  }

  /** After a move between distinct buckets, the contents are those before less the removed entries plus the word. */
  lemma MoveContents(p: Placements, word: WordToSort, source: Bucket, target: Bucket)
    requires source != target
    ensures Contents(MoveWord(p, word, source, target)) + multiset(Get(p, source))
            == Contents(p) + multiset(RemoveWord(Get(p, source), word.word)) + multiset{word}
  {
    var rl := RemoveWord(Get(p, source), word.word);
    var p1 := Put(p, source, rl);
    var tgt := Get(p1, target);
    var p2 := Put(p1, target, tgt + [word]);
    assert p2 == MoveWord(p, word, source, target);
    ContentsPut(p, source, rl);
    ContentsPut(p1, target, tgt + [word]);
    assert multiset(tgt + [word]) == multiset(tgt) + multiset{word};
    Cancel(Contents(p2), multiset(tgt), Contents(p1) + multiset{word}, multiset(tgt));
  }

  /** A move never adds a word: the placed words can only lose duplicate spellings. */
  lemma MoveShrinks(p: Placements, word: WordToSort, source: Bucket, target: Bucket)
    requires word in Get(p, source)
    ensures Contents(MoveWord(p, word, source, target)) <= Contents(p)
  {
    if source != target {
      var src := Get(p, source);
      RemoveWordShrinks(src, word);
      MoveContents(p, word, source, target);
      Cancel(Contents(MoveWord(p, word, source, target)), multiset(src),
             Contents(p), multiset(RemoveWord(src, word.word)) + multiset{word});
    }
  }

  /** With distinct spellings in the source, a move keeps exactly the same words. */
  lemma MovePreserves(p: Placements, word: WordToSort, source: Bucket, target: Bucket)
    requires word in Get(p, source) && UniqueWords(Get(p, source))
    ensures Contents(MoveWord(p, word, source, target)) == Contents(p)
  {
    if source != target {
      var src := Get(p, source);
      RemoveWordExact(src, word);
      MoveContents(p, word, source, target);
      Cancel(Contents(MoveWord(p, word, source, target)), multiset(src),
             Contents(p), multiset(RemoveWord(src, word.word)) + multiset{word});
    }
  }

  /** The number of words of the list whose part of speech is the box's. */
  function CountCorrect(ws: seq<WordToSort>, c: PartOfSpeech): (n: nat)
    ensures n <= |ws|
  {
    if ws == [] then 0
    else CountCorrect(ws[..|ws| - 1], c) + (if ws[|ws| - 1].partOfSpeech == c then 1 else 0)
  }

  /** Every word of the list belongs in the box. */
  predicate AllIn(ws: seq<WordToSort>, c: PartOfSpeech)
  {
    forall i :: 0 <= i < |ws| ==> ws[i].partOfSpeech == c
  }

  lemma {:induction false} CountCorrectAll(ws: seq<WordToSort>, c: PartOfSpeech)
    ensures CountCorrect(ws, c) == |ws| <==> AllIn(ws, c)
  {
    if ws != [] {
      var init := ws[..|ws| - 1];
      CountCorrectAll(init, c);
      assert forall i :: 0 <= i < |init| ==> init[i] == ws[i];
    }
  }

  /** The score of the first n boxes, in display order. */
  function BoxesScore(p: Placements, n: nat): nat
    requires n <= |Categories|
  {
    if n == 0 then 0
    else BoxesScore(p, n - 1) + CountCorrect(Get(p, Box(Categories[n - 1])), Categories[n - 1])
  }

  /** The number of words lying in the first n boxes. */
  function BoxesSize(p: Placements, n: nat): nat
    requires n <= |Categories|
  {
    if n == 0 then 0 else BoxesSize(p, n - 1) + |Get(p, Box(Categories[n - 1]))|
  }

  /** The first n boxes hold only words that belong there. */
  predicate BoxesCorrect(p: Placements, n: nat)
    requires n <= |Categories|
  {
    forall k :: 0 <= k < n ==> AllIn(Get(p, Box(Categories[k])), Categories[k])
  }

  /** The round score: the number of boxed words lying in the box of their part of speech. */
  function RoundScore(p: Placements): nat
  {
    BoxesScore(p, |Categories|)
  }

  /**
   * A round scores at most the number of boxed words, and scores all of them
   * exactly when every boxed word lies in its own box.
   */
  lemma {:induction false} RoundScoreBound(p: Placements, n: nat)
    requires n <= |Categories|
    ensures BoxesScore(p, n) <= BoxesSize(p, n)
    ensures BoxesScore(p, n) == BoxesSize(p, n) <==> BoxesCorrect(p, n)
  {
    if n > 0 {
      RoundScoreBound(p, n - 1);
      CountCorrectAll(Get(p, Box(Categories[n - 1])), Categories[n - 1]);
    }
  }

  /** The four boxes together hold the placed words outside the unsorted area. */
  lemma BoxesSizeContents(p: Placements)
    ensures BoxesSize(p, |Categories|) + |p.unsorted| == |Contents(p)|
  {
    assert BoxesSize(p, 1) == |p.noun|;
    assert BoxesSize(p, 2) == |p.noun| + |p.verb|;
    assert BoxesSize(p, 3) == |p.noun| + |p.verb| + |p.adjective|;
    assert BoxesSize(p, 4) == |p.noun| + |p.verb| + |p.adjective| + |p.adverb|;
  }

  lemma SubMultisetSize<T>(a: multiset<T>, b: multiset<T>)
    requires a <= b
    ensures |a| <= |b|
  {
    assert b == a + (b - a);
  }

  /**
   * The inner pass of handleSubmit over one box's words: a word of the box's
   * part of speech adds a point, any other word marks the box wrong.
   */
  method ScoreBox(ws: seq<WordToSort>, category: PartOfSpeech) returns (points: nat, correctHere: bool)
    ensures points == CountCorrect(ws, category)
    ensures correctHere <==> AllIn(ws, category)
  {
    points := 0;
    correctHere := true;
    for i := 0 to |ws|
      invariant points == CountCorrect(ws[..i], category)
      invariant correctHere <==> AllIn(ws[..i], category)
    {
      assert ws[..i + 1][..i] == ws[..i];
      if ws[i].partOfSpeech == category {
        points := points + 1;
      } else {
        correctHere := false;
      }
    }
    assert ws[..|ws|] == ws;
  }

  /**
   * The scoring pass of handleSubmit: the boxes in display order, each
   * adding its points and clearing placementsCorrect when it holds a word
   * of another part of speech.
   */
  method ScoreRound(p: Placements) returns (roundScore: nat, placementsCorrect: bool)
    ensures roundScore == RoundScore(p)
    ensures placementsCorrect <==> BoxesCorrect(p, |Categories|)
  {
    roundScore := 0;
    placementsCorrect := true;
    for k := 0 to |Categories|
      invariant roundScore == BoxesScore(p, k)
      invariant placementsCorrect <==> BoxesCorrect(p, k)
    {
      var category := Categories[k];
      var points, correctHere := ScoreBox(Get(p, Box(category)), category);
      roundScore := roundScore + points;
      placementsCorrect := placementsCorrect && correctHere;
    }
  }

  /** The number of words in the first n questions. */
  function WordsUpTo(qs: seq<WordClassSorterQuestion>, n: nat): nat
    requires n <= |qs|
  {
    if n == 0 then 0 else WordsUpTo(qs, n - 1) + |qs[n - 1].words|
  }

  /** With four words per question, as requested of the generator, a game offers at most the summary's total. */
  lemma {:induction false} WordsUpToBound(qs: seq<WordClassSorterQuestion>, n: nat)
    requires n <= |qs|
    requires forall i :: 0 <= i < n ==> |qs[i].words| <= 4
    ensures WordsUpTo(qs, n) <= 4 * n
  {
    if n > 0 {
      WordsUpToBound(qs, n - 1);
    }
  }

  class Game {
    var questions: seq<WordClassSorterQuestion>
    var currentQuestionIndex: nat
    var score: nat
    var isLoading: bool
    var error: bool
    var answered: bool
    var placements: Placements

    predicate IsGameOver()
      reads this
    {
      currentQuestionIndex >= TotalQuestions
    }

    /** A round is on screen. */
    predicate Playing()
      reads this
    {
      !isLoading && !error && !IsGameOver()
    }

    /** The rounds whose score is already counted. */
    function Scored(): nat
      reads this
    {
      currentQuestionIndex + (if answered then 1 else 0)
    }

    ghost predicate Valid()
      reads this
    {
      && (isLoading ==> !error)
      && (!isLoading && !error ==> |questions| >= TotalQuestions)
      && currentQuestionIndex <= TotalQuestions
      && Scored() <= |questions|
      && (answered ==> Playing())
      && (Playing() ==> Contents(placements) <= multiset(questions[currentQuestionIndex].words))
      && score <= WordsUpTo(questions, Scored())
    }

    constructor ()
      ensures Valid() && isLoading
    {
      questions := [];
      currentQuestionIndex := 0;
      score := 0;
      isLoading := true;
      error := false;
      answered := false;
      placements := ResetPlacements([]);
    }

    /**
     * fetchQuestions (on mount, Retry and Play Again).  Fewer than five
     * questions, or a failed request (None), is an error that leaves the
     * questions, index, score and placements as they were; otherwise the
     * game restarts at the first question with its words unsorted.
     */
    method FetchQuestions(fetched: Option<seq<WordClassSorterQuestion>>)
      requires Valid() && (isLoading || error || IsGameOver())
      modifies this
      ensures Valid() && !isLoading && !answered
      ensures error <==> fetched.None? || |fetched.value| < TotalQuestions
      ensures error ==> questions == old(questions) && currentQuestionIndex == old(currentQuestionIndex)
                        && score == old(score) && placements == old(placements)
      ensures !error ==> questions == fetched.value && currentQuestionIndex == 0 && score == 0
                         && placements == ResetPlacements(fetched.value[0].words)
    {
      error := false;
      answered := false;
      if fetched.None? || |fetched.value| < TotalQuestions {
        error := true;
        isLoading := false;
        return;
      }
      var qs := fetched.value;
      questions, currentQuestionIndex, score := qs, 0, 0;
      placements := ResetPlacements(qs[0].words);
      isLoading := false;
    }

    /**
     * handleDrop of a word dragged out of `source` onto `target`.  Words can
     * only be dragged before the round is submitted.
     */
    method Drop(word: WordToSort, source: Bucket, target: Bucket)
      requires Valid() && Playing() && !answered && word in Get(placements, source)
      modifies this`placements
      ensures Valid()
      ensures placements == MoveWord(old(placements), word, source, target)
      ensures Contents(placements) <= Contents(old(placements))
      ensures UniqueWords(Get(old(placements), source)) ==> Contents(placements) == Contents(old(placements))
    {
      MoveShrinks(placements, word, source, target);
      if UniqueWords(Get(placements, source)) {
        MovePreserves(placements, word, source, target);
      }
      placements := MoveWord(placements, word, source, target);
    }

    /**
     * handleSubmit: ignored while a word is unsorted or the round is already
     * answered; otherwise the round score is added and the round marked
     * answered (the delayed advance is Advance).
     */
    method Submit()
      requires Valid() && Playing()
      modifies this`score, this`answered
      ensures Valid()
      ensures |placements.unsorted| > 0 || old(answered) ==> score == old(score) && answered == old(answered)
      ensures |placements.unsorted| == 0 && !old(answered) ==>
                score == old(score) + RoundScore(placements) && answered
    {
      if |placements.unsorted| > 0 || answered {
        return;
      }
      var roundScore, placementsCorrect := ScoreRound(placements);
      RoundScoreBound(placements, |Categories|);
      BoxesSizeContents(placements);
      SubMultisetSize(Contents(placements), multiset(questions[currentQuestionIndex].words));
      score := score + roundScore;
      answered := true;
    }

    /**
     * The timeout after a submit: the next round is dealt, or, after the
     * last round, the game is over and its score reported.
     */
    method Advance() returns (reported: Option<int>)
      requires Valid() && answered
      modifies this`answered, this`currentQuestionIndex, this`placements
      ensures Valid() && !answered
      ensures currentQuestionIndex == old(currentQuestionIndex) + 1
      ensures currentQuestionIndex < TotalQuestions ==>
                placements == ResetPlacements(questions[currentQuestionIndex].words) && reported.None?
      ensures IsGameOver() <==> reported.Some?
      ensures IsGameOver() ==> reported == Some(score) && score <= WordsUpTo(questions, TotalQuestions)
    {
      answered := false;
      var nextIndex := currentQuestionIndex + 1;
      reported := None;
      if nextIndex < TotalQuestions {
        currentQuestionIndex := nextIndex;
        placements := ResetPlacements(questions[nextIndex].words);
      } else {
        currentQuestionIndex := nextIndex;
        reported := Some(score);
      }
    }
  }

  /** A completed game whose questions had four words each scores at most the summary's total. */
  lemma ReportedBound(qs: seq<WordClassSorterQuestion>, score: nat)
    requires |qs| >= TotalQuestions && score <= WordsUpTo(qs, TotalQuestions)
    requires forall i :: 0 <= i < TotalQuestions ==> |qs[i].words| <= 4
    ensures score <= MaxScore
  {
    WordsUpToBound(qs, TotalQuestions);
  }
}
