/**
 * Grammar Quiz Wheel: a spin of the wheel picks one of five categories, the
 * category's questions are fetched when the spin ends, and then five
 * multiple-choice rounds are played as in Grammar Fill.
 */
module GrammarQuizWheel {
  import opened GameTypes
  import Shuffle

  const Categories: seq<string> := ["Verbs", "Nouns", "Articles", "Prepositions", "Tenses"]

  /** Degrees per wheel segment: 360 / 5. */
  const SegmentAngle: int := 72

  datatype View = Instructions | Playing | Summary

  /**
   * The wheel's final rotation: `spins` full turns, then `segment` segments,
   * less half a segment.
   */
  function TargetAngle(spins: int, segment: int): int
  {
    spins * 360 + segment * SegmentAngle - SegmentAngle / 2
  }

  /**
   * With 8 to 11 full turns and one of the five segments, the rotation lies
   * in [2844, 4212], and it determines both the number of turns and the
   * segment.
   */
  lemma TargetAngleRange(spins: int, segment: int)
    requires 8 <= spins <= 11 && 0 <= segment < |Categories|
    ensures 2844 <= TargetAngle(spins, segment) <= 4212
    ensures (TargetAngle(spins, segment) + 36) / 360 == spins
    ensures (TargetAngle(spins, segment) + 36) % 360 == segment * SegmentAngle
  {
  }

  class Game {
    var view: View
    var questions: seq<FillQuestion>
    var currentQuestionIndex: nat
    var score: nat
    var error: bool
    var feedback: Feedback
    var selectedAnswer: Option<string>
    var shuffledOptions: seq<string>
    var isSpinning: bool
    var spinRotation: int
    var selectedCategory: Option<string>
    /** Whether the completion of the current session has been reported. */
    ghost var completionReported: bool

    predicate IsGameOver()
      reads this
    {
      currentQuestionIndex >= TotalQuestions
    }

    /** Everything Valid asks except the shown options. */
    ghost predicate Core()
      reads this
    {
      && currentQuestionIndex <= TotalQuestions
      && (view == Playing ==> |questions| >= TotalQuestions && !IsGameOver() && !completionReported)
      && (view == Summary ==> IsGameOver())
      && (selectedAnswer.None? <==> feedback == NoFeedback)
      && (selectedAnswer.Some? ==> view == Playing)
      && score <= currentQuestionIndex + (if selectedAnswer.Some? then 1 else 0)
    }

    /** The shown options are a permutation of the current question's options. */
    ghost predicate OptionsShown()
      reads this
    {
      currentQuestionIndex < |questions| ==>
        multiset(shuffledOptions) == multiset(questions[currentQuestionIndex].options)
    }

    ghost predicate Valid()
      reads this
    {
      Core() && OptionsShown()
    }

    constructor ()
      ensures Valid()
      ensures view == Instructions && questions == [] && !isSpinning && selectedCategory.None?
    {
      view := Instructions;
      questions := [];
      currentQuestionIndex := 0;
      score := 0;
      error := false;
      feedback := NoFeedback;
      selectedAnswer := None;
      shuffledOptions := [];
      isSpinning := false;
      spinRotation := 0;
      selectedCategory := None;
      completionReported := false;
    }

    /**
     * handleSpin, with spinDraw = floor(random * 4) and segmentDraw =
     * floor(random * 5).  Ignored while the wheel spins; otherwise the wheel
     * turns 8 + spinDraw times and the category is the drawn segment's.
     */
    method HandleSpin(spinDraw: nat, segmentDraw: nat)
      requires Valid() && view == Instructions
      requires spinDraw < 4 && segmentDraw < |Categories|
      modifies this`error, this`isSpinning, this`spinRotation, this`selectedCategory
      ensures Valid()
      ensures old(isSpinning) ==> isSpinning && error == old(error) && spinRotation == old(spinRotation)
                                  && selectedCategory == old(selectedCategory)
      ensures !old(isSpinning) ==> isSpinning && !error
                                   && spinRotation == TargetAngle(8 + spinDraw, segmentDraw)
                                   && 2844 <= spinRotation <= 4212
                                   && selectedCategory == Some(Categories[segmentDraw])
      ensures view == old(view) && questions == old(questions) && score == old(score)
      ensures currentQuestionIndex == old(currentQuestionIndex) && selectedAnswer == old(selectedAnswer)
    {
      if isSpinning {
        return;
      }
      isSpinning := true;
      error := false;
      var randomSpins := spinDraw + 8;
      var randomSegment := segmentDraw;
      TargetAngleRange(randomSpins, randomSegment);
      spinRotation := TargetAngle(randomSpins, randomSegment);
      selectedCategory := Some(Categories[randomSegment]);
    }

    /**
     * The end-of-spin callback: the drawn category's questions are fetched
     * (`fetched` is what the generator returned), the options effect runs on
     * the new questions, and the spin stops.
     */
    method FinishSpin(fetched: seq<FillQuestion>, draws: seq<nat>)
      requires Valid() && isSpinning && view == Instructions
      requires |fetched| >= TotalQuestions ==> Shuffle.ValidDraws(draws, |fetched[0].options|)
      modifies this`view, this`questions, this`currentQuestionIndex, this`score, this`error
      modifies this`selectedAnswer, this`shuffledOptions, this`isSpinning, this`completionReported
      ensures Valid()
      ensures !isSpinning && selectedCategory == old(selectedCategory)
      ensures error <==> |fetched| < TotalQuestions
      ensures error ==> view == Instructions && questions == old(questions) && score == old(score)
                        && currentQuestionIndex == old(currentQuestionIndex)
      ensures !error ==> view == Playing && questions == fetched && currentQuestionIndex == 0
                         && score == 0 && selectedAnswer.None?
                         && shuffledOptions == Shuffle.FisherYates(fetched[0].options, draws)
    {
      FetchQuestions(fetched);
      if !error {
        OptionsEffect(draws);
      }
      isSpinning := false;
    }

    /**
     * fetchQuestions: fewer than five questions is an error and a return to
     * the instructions; otherwise the list is installed, index, score and
     * selection reset and the game view entered.
     */
    method FetchQuestions(fetched: seq<FillQuestion>)
      requires Valid() && view == Instructions
      modifies this`error, this`questions, this`currentQuestionIndex, this`score, this`selectedAnswer,
               this`view, this`completionReported
      ensures Core()
      ensures error <==> |fetched| < TotalQuestions
      ensures error ==> Valid() && view == Instructions && questions == old(questions) && score == old(score)
                        && currentQuestionIndex == old(currentQuestionIndex)
      ensures !error ==> view == Playing && questions == fetched && currentQuestionIndex == 0
                         && score == 0 && selectedAnswer.None?
    {
      error := false;
      if |fetched| < TotalQuestions {
        error := true;
        view := Instructions;
        return;
      }
      questions, currentQuestionIndex, score := fetched, 0, 0;
      selectedAnswer := None;
      view, completionReported := Playing, false;
    }

    /**
     * The effect on the questions and the index: when there is a current
     * question, its options are shuffled with the given draws.
     */
    method OptionsEffect(draws: seq<nat>)
      requires Core()
      requires currentQuestionIndex < |questions| ==>
                 Shuffle.ValidDraws(draws, |questions[currentQuestionIndex].options|)
      modifies this`shuffledOptions
      ensures Valid()
      ensures currentQuestionIndex < |questions| ==>
                shuffledOptions == Shuffle.FisherYates(questions[currentQuestionIndex].options, draws)
      ensures currentQuestionIndex >= |questions| ==> shuffledOptions == old(shuffledOptions)
    {
      if |questions| > 0 && currentQuestionIndex < |questions| {
        shuffledOptions := Shuffle.ShuffleWhile(questions[currentQuestionIndex].options, draws);
      }
    }

    /**
     * handleAnswerClick: a click while an option is selected changes nothing;
     * otherwise the option is selected and the score rises by one exactly
     * when it equals the answer.
     */
    method AnswerClick(option: string)
      requires Valid() && view == Playing && option in shuffledOptions
      modifies this`selectedAnswer, this`score, this`feedback
      ensures Valid()
      ensures view == old(view) && questions == old(questions)
      ensures currentQuestionIndex == old(currentQuestionIndex) && shuffledOptions == old(shuffledOptions)
      ensures old(selectedAnswer).Some? ==>
                selectedAnswer == old(selectedAnswer) && feedback == old(feedback) && score == old(score)
      ensures old(selectedAnswer).None? ==>
                && selectedAnswer == Some(option)
                && feedback == Judge(option, questions[currentQuestionIndex].answer)
                && score == old(score) + Points(option, questions[currentQuestionIndex].answer)
    {
      if selectedAnswer.Some? {
        return;
      }
      selectedAnswer := Some(option);
      var current := questions[currentQuestionIndex];
      if option == current.answer {
        score := score + 1;
        feedback := Correct;
      } else {
        feedback := Incorrect;
      }
    }

    /**
     * Whether the game view's render would read a question that does not
     * exist: the view is the game's, there are questions, and the index is
     * past the last of them.
     */
    predicate RenderReadsMissingQuestion()
      reads this
    {
      view == Playing && |questions| > 0 && currentQuestionIndex >= |questions|
    }

    /**
     * The deferred callback of an accepted answer on its own, as scheduled:
     * feedback and selection cleared and the index moved on, with the view
     * still the game's.  The component renders this state before the
     * completion effect can switch to the summary, and when exactly five
     * questions were fetched the fifth answer leaves an index with no
     * question behind it.
     */
    method AdvanceAsWritten()
      requires Valid() && selectedAnswer.Some?
      modifies this`feedback, this`selectedAnswer, this`currentQuestionIndex
      ensures feedback == NoFeedback && selectedAnswer.None?
      ensures currentQuestionIndex == old(currentQuestionIndex) + 1
      ensures view == Playing && questions == old(questions) && score == old(score)
      ensures RenderReadsMissingQuestion() <==>
                |questions| == TotalQuestions && old(currentQuestionIndex) == TotalQuestions - 1
    {
      feedback := NoFeedback;
      selectedAnswer := None;
      if !IsGameOver() {
        currentQuestionIndex := currentQuestionIndex + 1;
      }
    }

    /**
     * The deferred callback of an accepted answer and the effects it
     * triggers: feedback and selection cleared, index moved on (the game was
     * not over when the answer was given), the next options shuffled, and,
     * once the game is over in the game view, the score reported and the
     * summary shown, all before the next render, so that the game view
     * never reads past the last question.  A session reports its completion
     * at most once.
     */
    method Advance(draws: seq<nat>) returns (reported: Option<int>)
      requires Valid() && selectedAnswer.Some?
      requires currentQuestionIndex + 1 < |questions| ==>
                 Shuffle.ValidDraws(draws, |questions[currentQuestionIndex + 1].options|)
      modifies this`feedback, this`selectedAnswer, this`currentQuestionIndex, this`completionReported
      modifies this`view, this`shuffledOptions
      ensures Valid()
      ensures view == Playing ==> currentQuestionIndex < |questions|
      ensures feedback == NoFeedback && selectedAnswer.None?
      ensures currentQuestionIndex == old(currentQuestionIndex) + 1
      ensures questions == old(questions) && score == old(score)
      ensures currentQuestionIndex < |questions| ==>
                shuffledOptions == Shuffle.FisherYates(questions[currentQuestionIndex].options, draws)
      ensures reported.Some? <==> IsGameOver()
      ensures reported.Some? ==> !old(completionReported) && completionReported
                                 && reported.value == score && view == Summary
      ensures reported.None? ==> view == Playing
    {
      feedback := NoFeedback;
      selectedAnswer := None;
      if !IsGameOver() {
        currentQuestionIndex := currentQuestionIndex + 1;
      }
      reported := None;
      if IsGameOver() && view == Playing {
        reported := Some(score);
        completionReported := true;
        view := Summary;
      }
      OptionsEffect(draws);
    }

    /** handlePlayAgain: back to the instructions with the category and the questions cleared. */
    method PlayAgain()
      requires Valid() && view == Summary
      modifies this`view, this`selectedCategory, this`questions
      ensures Valid()
      ensures view == Instructions && selectedCategory.None? && questions == []
      ensures score == old(score) && currentQuestionIndex == old(currentQuestionIndex)
    {
      view := Instructions;
      selectedCategory := None;
      questions := [];
    }
  }
}
