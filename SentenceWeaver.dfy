/**
 * Sentence Weaver: the words of a sentence are scattered as tiles; the player
 * clicks them in order.  A full selection is checked against the sentence's
 * words; a wrong order may be retried once, with a hint.  Five questions,
 * ten points each.
 */
module SentenceWeaver {
  import opened GameTypes
  import Shuffle
  import Text

  const PointsPerSentence: nat := 10

  datatype View = Instructions | Playing | Summary

  /** A word tile (its random screen position is not modelled). */
  datatype WordElement = WordElement(word: string, id: int, clicked: bool)

  /** The words to place: the sentence without . , ! ? split on single spaces. */
  function Target(q: SentenceWeaverQuestion): (ws: seq<string>)
    ensures |ws| >= 1 && Text.AllSpaceFree(ws)
  {
    Text.Split(Text.Clean(q.sentence))
  }

  /** Joined with spaces, the target words give the sentence without its punctuation. */
  lemma TargetJoin(q: SentenceWeaverQuestion)
    ensures Text.Join(Target(q)) == Text.Clean(q.sentence)
  {
    Text.JoinSplit(Text.Clean(q.sentence));
  }

  /** The tiles of a shuffled word list: ids 0 to n-1, none clicked. */
  function Elements(words: seq<string>): (els: seq<WordElement>)
    ensures |els| == |words|
    ensures forall k :: 0 <= k < |els| ==> els[k] == WordElement(words[k], k, false)
  {
    seq(|words|, k requires 0 <= k < |words| => WordElement(words[k], k, false))
  }

  /** The tiles carry the dealt words in order, with ids 0 to n-1; only their flags vary. */
  predicate Dealt(els: seq<WordElement>, words: seq<string>)
  {
    |els| == |words| && forall k :: 0 <= k < |els| ==> els[k].word == words[k] && els[k].id == k
  }

  /** The number of clicked tiles. */
  function ClickedCount(els: seq<WordElement>): (n: nat)
    ensures n <= |els|
  {
    if els == [] then 0 else (if els[0].clicked then 1 else 0) + ClickedCount(els[1..])
  }

  /** Replacing one tile changes the count by the change in that tile's flag. */
  lemma {:induction false} ClickedCountUpdate(els: seq<WordElement>, i: nat, e: WordElement)
    requires i < |els|
    ensures ClickedCount(els[i := e]) ==
              ClickedCount(els) - (if els[i].clicked then 1 else 0) + (if e.clicked then 1 else 0)
  {
    if i > 0 {
      assert els[i := e][1..] == els[1..][i - 1 := e];
      ClickedCountUpdate(els[1..], i - 1, e);
    }
  }

  /** While some tile is unclicked, fewer than all tiles are clicked. */
  lemma {:induction false} ClickedCountBelow(els: seq<WordElement>, i: nat)
    requires i < |els| && !els[i].clicked
    ensures ClickedCount(els) < |els|
  {
    if i > 0 {
      ClickedCountBelow(els[1..], i - 1);
    }
  }

  lemma {:induction false} NoneClicked(els: seq<WordElement>)
    requires forall k :: 0 <= k < |els| ==> !els[k].clicked
    ensures ClickedCount(els) == 0
  {
    if els != [] {
      NoneClicked(els[1..]);
    }
  }

  /** `el.id === id ? { ...el, clicked: true } : el` over the tiles. */
  function MarkClicked(els: seq<WordElement>, id: int): (r: seq<WordElement>)
    ensures |r| == |els|
    ensures forall k :: 0 <= k < |els| ==>
              r[k].word == els[k].word && r[k].id == els[k].id && r[k].clicked == (els[k].clicked || els[k].id == id)
  {
    seq(|els|, k requires 0 <= k < |els| => if els[k].id == id then els[k].(clicked := true) else els[k])
  }

  /** Retry's update: every tile unclicked, words and ids kept. */
  function UnclickAll(els: seq<WordElement>): (r: seq<WordElement>)
    ensures |r| == |els|
    ensures forall k :: 0 <= k < |els| ==> r[k] == els[k].(clicked := false)
  {
    seq(|els|, k requires 0 <= k < |els| => els[k].(clicked := false))
  }

  /**
   * The full selection is compared with the target by joining both with
   * spaces; since every piece is free of spaces this is comparing the lists.
   */
  lemma CheckIsListEquality(selected: seq<string>, target: seq<string>)
    requires |selected| >= 1 && |target| >= 1 && Text.AllSpaceFree(selected) && Text.AllSpaceFree(target)
    ensures Text.Join(selected) == Text.Join(target) <==> selected == target
  {
    Text.JoinInjective(selected, target);
  }

  /**
   * A round of question q: the target words, tiles carrying the dealt
   * (shuffled) target words, one clicked tile per selected word, at most two
   * attempts, and the hint exactly after the first failure.
   */
  ghost predicate RoundOk(q: SentenceWeaverQuestion, correctWords: seq<string>, els: seq<WordElement>,
                          dealt: seq<string>, selected: seq<string>, attempts: nat, showHint: bool)
  {
    && correctWords == Target(q)
    && Dealt(els, dealt)
    && multiset(dealt) == multiset(correctWords)
    && ClickedCount(els) == |selected|
    && Text.AllSpaceFree(selected)
    && attempts <= 2
    && (showHint <==> attempts >= 1)
  }

  /**
   * A round as shown: while unjudged the selection is shorter than the
   * target and at most one attempt failed; once judged the selection is
   * complete, and it is the target exactly when the feedback is correct.
   */
  ghost predicate RoundShown(q: SentenceWeaverQuestion, correctWords: seq<string>, els: seq<WordElement>,
                             dealt: seq<string>, selected: seq<string>, feedback: Feedback, attempts: nat,
                             showHint: bool)
  {
    && RoundOk(q, correctWords, els, dealt, selected, attempts, showHint)
    && (feedback == NoFeedback ==> |selected| < |correctWords| && attempts <= 1)
    && (feedback != NoFeedback ==> |selected| == |correctWords|)
    && (feedback == Correct ==> selected == correctWords)
    && (feedback == Incorrect ==> selected != correctWords && attempts >= 1)
  }

  /** A freshly dealt round: unclicked tiles of a shuffle of the target, nothing selected. */
  lemma FreshRound(q: SentenceWeaverQuestion, dealt: seq<string>)
    requires multiset(dealt) == multiset(Target(q))
    ensures RoundShown(q, Target(q), Elements(dealt), dealt, [], NoFeedback, 0, false)
  {
    NoneClicked(Elements(dealt));
    assert Text.AllSpaceFree([]);
  }

  class Game {
    var view: View
    var questions: seq<SentenceWeaverQuestion>
    var currentQuestionIndex: nat
    var score: nat
    var error: bool
    var wordElements: seq<WordElement>
    var selectedWords: seq<string>
    var correctWords: seq<string>
    var feedback: Feedback
    var attempts: nat
    var showHint: bool
    /** The shuffled words the tiles were made from. */
    ghost var dealt: seq<string>

    predicate HasQuestion()
      reads this
    {
      view == Playing && !error && currentQuestionIndex < |questions|
    }

    /** A correct answer or a second failure has scheduled the move to the next question. */
    predicate AdvancePending()
      reads this
    {
      feedback == Correct || (feedback == Incorrect && attempts >= 2)
    }

    /** The round's tiles, selection and attempt counters, whatever the feedback. */
    ghost predicate RoundCore()
      reads this
      requires HasQuestion()
    {
      RoundOk(questions[currentQuestionIndex], correctWords, wordElements, dealt, selectedWords, attempts, showHint)
    }

    /** The state of the round on screen. */
    ghost predicate RoundValid()
      reads this
      requires HasQuestion()
    {
      RoundShown(questions[currentQuestionIndex], correctWords, wordElements, dealt, selectedWords,
                 feedback, attempts, showHint)
    }

    ghost predicate Valid()
      reads this
    {
      && currentQuestionIndex <= TotalQuestions
      && (view == Playing && !error ==> |questions| >= TotalQuestions)
      && score <= PointsPerSentence * currentQuestionIndex
                 + (if HasQuestion() && feedback == Correct then PointsPerSentence else 0)
      && (view == Playing && !error ==> currentQuestionIndex < TotalQuestions)
      && (HasQuestion() ==> RoundValid())
    }

    constructor ()
      ensures Valid() && view == Instructions && score == 0 && currentQuestionIndex == 0
    {
      view := Instructions;
      questions := [];
      currentQuestionIndex := 0;
      score := 0;
      error := false;
      wordElements := [];
      selectedWords := [];
      correctWords := [];
      feedback := NoFeedback;
      attempts := 0;
      showHint := false;
      dealt := [];
    }

    /**
     * setupQuestion with the shuffle's draws: the target words, a shuffled
     * tile for each, an empty selection, no attempts, no hint, no feedback.
     */
    method SetupQuestion(draws: seq<nat>)
      requires view == Playing && !error && currentQuestionIndex < TotalQuestions <= |questions|
      requires Shuffle.ValidDraws(draws, |Target(questions[currentQuestionIndex])|)
      modifies this`correctWords, this`selectedWords, this`attempts, this`showHint, this`feedback,
               this`wordElements, this`dealt
      ensures RoundShown(questions[currentQuestionIndex], correctWords, wordElements, dealt, selectedWords,
                         feedback, attempts, showHint)
      ensures dealt == Shuffle.FisherYates(correctWords, draws) && wordElements == Elements(dealt)
      ensures selectedWords == [] && attempts == 0 && !showHint && feedback == NoFeedback
    {
      var question := questions[currentQuestionIndex];
      var words := Target(question);
      var shuffledWords := Shuffle.ShuffleFor(words, draws);
      FreshRound(question, shuffledWords);
      correctWords, selectedWords, attempts, showHint, feedback := words, [], 0, false, NoFeedback;
      wordElements, dealt := Elements(shuffledWords), shuffledWords;
    }

    /**
     * fetchQuestions (Start Game, Retry and Play Again): fewer than five
     * questions, or a failed request (None), is an error.  Otherwise the
     * game restarts on the new questions at the first question with score 0.
     */
    method FetchQuestions(fetched: Option<seq<SentenceWeaverQuestion>>, draws: seq<nat>)
      requires Valid() && (view == Instructions || view == Summary || error)
      requires fetched.Some? && |fetched.value| >= TotalQuestions ==>
                 Shuffle.ValidDraws(draws, |Target(fetched.value[0])|)
      modifies this`error, this`questions, this`view, this`currentQuestionIndex, this`score
      modifies this`correctWords, this`selectedWords, this`attempts, this`showHint, this`feedback,
               this`wordElements, this`dealt
      ensures Valid()
      ensures error <==> fetched.None? || |fetched.value| < TotalQuestions
      ensures error ==> questions == old(questions) && view == old(view)
                        && currentQuestionIndex == old(currentQuestionIndex) && score == old(score)
                        && wordElements == old(wordElements) && selectedWords == old(selectedWords)
                        && feedback == old(feedback) && attempts == old(attempts)
      ensures !error ==>
                && questions == fetched.value && view == Playing
                && currentQuestionIndex == 0 && score == 0 && HasQuestion()
                && correctWords == Target(questions[0]) && selectedWords == [] && feedback == NoFeedback
                && dealt == Shuffle.FisherYates(correctWords, draws) && wordElements == Elements(dealt)
                && attempts == 0 && !showHint
    {
      error := false;
      if fetched.None? || |fetched.value| < TotalQuestions {
        error := true;
        return;
      }
      questions := fetched.value;
      view := Playing;
      currentQuestionIndex := 0;
      score := 0;
      SetupQuestion(draws);
    }

    /**
     * fetchQuestions as written (Start Game, Retry and Play Again): a
     * successful fetch installs the questions and shows the game, but the
     * question index and the score are kept.  After a finished game the
     * index is five, so a batch of exactly five questions leaves the game
     * view with no question to set up or show, on the loading spinner.
     */
    method FetchQuestionsAsWritten(fetched: Option<seq<SentenceWeaverQuestion>>)
      requires Valid() && (view == Instructions || view == Summary || error)
      modifies this`error, this`questions, this`view
      ensures error <==> fetched.None? || |fetched.value| < TotalQuestions
      ensures currentQuestionIndex == old(currentQuestionIndex) && score == old(score)
      ensures error ==> questions == old(questions) && view == old(view)
      ensures !error ==> questions == fetched.value && view == Playing
      ensures !error ==> (HasQuestion() <==> old(currentQuestionIndex) < |fetched.value|)
    {
      error := false;
      if fetched.None? || |fetched.value| < TotalQuestions {
        error := true;
        return;
      }
      questions := fetched.value;
      view := Playing;
    }

    /**
     * handleWordClick: a clicked tile, or a click while feedback shows, is
     * ignored.  Otherwise the word is appended to the selection and the tile
     * marked; when the selection is as long as the target it is checked.
     */
    method WordClick(i: nat)
      requires Valid() && HasQuestion() && i < |wordElements|
      modifies this`selectedWords, this`wordElements, this`feedback, this`score, this`attempts, this`showHint
      ensures Valid()
      ensures old(wordElements[i].clicked) || old(feedback) != NoFeedback ==>
                selectedWords == old(selectedWords) && wordElements == old(wordElements)
                && feedback == old(feedback) && score == old(score)
      ensures !old(wordElements[i].clicked) && old(feedback) == NoFeedback ==>
                && selectedWords == old(selectedWords) + [old(wordElements[i].word)]
                && wordElements == MarkClicked(old(wordElements), i)
                && (|selectedWords| < |correctWords| ==> feedback == NoFeedback && score == old(score))
                && (|selectedWords| == |correctWords| ==> feedback != NoFeedback)
    {
      var clickedElement := wordElements[i];
      if clickedElement.clicked || feedback != NoFeedback {
        return;
      }
      assert clickedElement.word == dealt[i] && dealt[i] in multiset(correctWords);
      ClickedCountBelow(wordElements, i);
      ClickedCountUpdate(wordElements, i, clickedElement.(clicked := true));
      assert MarkClicked(wordElements, i) == wordElements[i := clickedElement.(clicked := true)];
      var newSelectedWords := selectedWords + [clickedElement.word];
      selectedWords := newSelectedWords;
      wordElements := MarkClicked(wordElements, clickedElement.id);
      if |newSelectedWords| == |correctWords| {
        CheckSentence(newSelectedWords);
      }
    }

    /**
     * checkSentence on the complete selection: a correct sentence earns 10
     * points; a first failure shows the hint and offers a retry, a second
     * one ends the question.
     */
    method CheckSentence(userWords: seq<string>)
      requires HasQuestion() && RoundCore() && userWords == selectedWords && |userWords| == |correctWords|
      requires currentQuestionIndex < TotalQuestions <= |questions|
      requires score <= PointsPerSentence * currentQuestionIndex && feedback == NoFeedback && attempts <= 1
      modifies this`feedback, this`score, this`attempts, this`showHint
      ensures Valid() && feedback != NoFeedback
      ensures feedback == Correct <==> userWords == correctWords
      ensures feedback == Correct ==> score == old(score) + PointsPerSentence && attempts == old(attempts)
      ensures feedback == Incorrect ==>
                score == old(score) && attempts == old(attempts) + 1 && showHint
                && (AdvancePending() <==> old(attempts) == 1)
    {
      CheckIsListEquality(userWords, correctWords);
      var isCorrect := Text.Join(userWords) == Text.Join(correctWords);
      if isCorrect {
        feedback := Correct;
        score := score + PointsPerSentence;
      } else {
        feedback := Incorrect;
        var firstFailure := attempts == 0;
        attempts := attempts + 1;
        if firstFailure {
          showHint := true;
        }
      }
    }

    /** Try Again after a first failure: the selection is emptied and every tile unclicked. */
    method Retry()
      requires Valid() && HasQuestion() && feedback == Incorrect && attempts < 2
      modifies this`selectedWords, this`wordElements, this`feedback
      ensures Valid()
      ensures selectedWords == [] && wordElements == UnclickAll(old(wordElements)) && feedback == NoFeedback
      ensures multiset(wordElements) == multiset(Elements(dealt))
    {
      selectedWords := [];
      wordElements := UnclickAll(wordElements);
      feedback := NoFeedback;
      NoneClicked(wordElements);
      assert wordElements == Elements(dealt);
    }

    /**
     * The deferred move to the next question (after a correct sentence or a
     * second failure), with the effects it triggers: past the fifth
     * question the score is reported and the summary shown, otherwise the
     * next question is set up.
     */
    method Advance(draws: seq<nat>) returns (reported: Option<int>)
      requires Valid() && HasQuestion() && AdvancePending()
      requires currentQuestionIndex + 1 < TotalQuestions ==>
                 Shuffle.ValidDraws(draws, |Target(questions[currentQuestionIndex + 1])|)
      modifies this`currentQuestionIndex, this`view
      modifies this`correctWords, this`selectedWords, this`attempts, this`showHint, this`feedback,
               this`wordElements, this`dealt
      ensures Valid() && currentQuestionIndex == old(currentQuestionIndex) + 1 && score == old(score)
      ensures questions == old(questions) && error == old(error)
      ensures currentQuestionIndex == TotalQuestions ==>
                view == Summary && reported == Some(score) && score <= PointsPerSentence * TotalQuestions
                && wordElements == old(wordElements) && selectedWords == old(selectedWords)
                && feedback == old(feedback) && attempts == old(attempts)
      ensures currentQuestionIndex < TotalQuestions ==>
                && reported.None? && view == Playing && HasQuestion()
                && correctWords == Target(questions[currentQuestionIndex])
                && dealt == Shuffle.FisherYates(correctWords, draws) && wordElements == Elements(dealt)
                && selectedWords == [] && feedback == NoFeedback && attempts == 0 && !showHint
    {
      currentQuestionIndex := currentQuestionIndex + 1;
      if currentQuestionIndex >= TotalQuestions {
        reported := Some(score);
        view := Summary;
      } else {
        reported := None;
        SetupQuestion(draws);
      }
    }
  }
}
