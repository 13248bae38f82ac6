/**
 * Grammar Fill: five fill-in-the-blank rounds.  Each round shows the current
 * question's options in shuffled order; the first click selects an option and
 * scores it, and a deferred callback clears the selection and moves on.
 */
module GrammarFill {
  import opened GameTypes
  import Shuffle

  class Game {
    var questions: seq<FillQuestion>
    var currentQuestionIndex: nat
    var score: nat
    /** Whether the error screen (with its Retry button) is showing. */
    var error: bool
    var feedback: Feedback
    var selectedAnswer: Option<string>
    var shuffledOptions: seq<string>

    /** Game over once the index reaches the number of questions per game. */
    predicate IsGameOver()
      reads this
    {
      currentQuestionIndex >= TotalQuestions
    }

    /** The round screen is showing: loaded, no error, not over. */
    predicate Playing()
      reads this
    {
      !error && !IsGameOver() && questions != []
    }

    ghost predicate Valid()
      reads this
    {
      && currentQuestionIndex <= TotalQuestions
      && (questions != [] ==> |questions| >= TotalQuestions)
      && (selectedAnswer.None? <==> feedback == NoFeedback)
      && (selectedAnswer.Some? ==> Playing())
      // the score never exceeds the number of answers given so far
      && score <= currentQuestionIndex + (if selectedAnswer.Some? then 1 else 0)
      // the shown options are a permutation of the current question's options
      && (currentQuestionIndex < |questions| ==>
            multiset(shuffledOptions) == multiset(questions[currentQuestionIndex].options))
    }

    constructor ()
      ensures Valid()
      ensures questions == [] && currentQuestionIndex == 0 && score == 0
      ensures !error && feedback == NoFeedback && selectedAnswer.None?
    {
      questions := [];
      currentQuestionIndex := 0;
      score := 0;
      error := false;
      feedback := NoFeedback;
      selectedAnswer := None;
      shuffledOptions := [];
    }

    /**
     * fetchQuestions with the generator's answer as input (on mount, Retry and
     * Play Again).  Fewer than five questions is an error that changes nothing
     * else; otherwise the list is installed, index, score and selection reset,
     * and the first question's options shuffled with the given draws.
     */
    method Fetch(fetched: seq<FillQuestion>, draws: seq<nat>)
      requires Valid() && !Playing()
      requires |fetched| >= TotalQuestions ==> Shuffle.ValidDraws(draws, |fetched[0].options|)
      modifies this`questions, this`currentQuestionIndex, this`score, this`error, this`selectedAnswer
      modifies this`shuffledOptions
      ensures Valid()
      ensures error <==> |fetched| < TotalQuestions
      ensures error ==> questions == old(questions) && currentQuestionIndex == old(currentQuestionIndex)
                        && score == old(score) && selectedAnswer == old(selectedAnswer)
                        && feedback == old(feedback) && shuffledOptions == old(shuffledOptions)
      ensures !error ==> questions == fetched && currentQuestionIndex == 0 && score == 0
                         && selectedAnswer.None? && feedback == NoFeedback
                         && shuffledOptions == Shuffle.FisherYates(fetched[0].options, draws)
    {
      error := false;
      if |fetched| < TotalQuestions {
        error := true;
        return;
      }
      questions := fetched;
      currentQuestionIndex := 0;
      score := 0;
      selectedAnswer := None;
      shuffledOptions := Shuffle.ShuffleWhile(questions[0].options, draws);
    }

    /**
     * handleAnswerClick on one of the shown options.  A click while an option
     * is selected changes nothing; otherwise the option is selected, the
     * feedback is correct exactly when it equals the answer, and only then the
     * score rises, by one.
     */
    method AnswerClick(option: string)
      requires Valid() && Playing() && option in shuffledOptions
      modifies this`score, this`feedback, this`selectedAnswer
      ensures Valid()
      ensures questions == old(questions) && currentQuestionIndex == old(currentQuestionIndex)
      ensures shuffledOptions == old(shuffledOptions) && error == old(error)
      ensures old(selectedAnswer).Some? ==>
                selectedAnswer == old(selectedAnswer) && feedback == old(feedback) && score == old(score)
      ensures old(selectedAnswer).None? ==>
                && selectedAnswer == Some(option)
                && feedback == Judge(option, questions[currentQuestionIndex].answer)
                && score == old(score) + Points(option, questions[currentQuestionIndex].answer)
    {
      if selectedAnswer.Some? {
        return;
      }
      selectedAnswer := Some(option);
      var current := questions[currentQuestionIndex];
      if option == current.answer {
        score := score + 1;
        feedback := Correct;
      } else {
        feedback := Incorrect;
      }
    }

    /**
     * The deferred callback of an accepted answer, followed by the effects it
     * triggers: the feedback and selection are cleared and the index moves on
     * (the callback's index is that of the answered round, below five); the
     * next question's options are shuffled when there is one; when the game
     * is over the completion report carries the score.
     */
    method Advance(draws: seq<nat>) returns (reported: Option<int>)
      requires Valid() && selectedAnswer.Some?
      requires currentQuestionIndex + 1 < |questions| ==>
                 Shuffle.ValidDraws(draws, |questions[currentQuestionIndex + 1].options|)
      modifies this`feedback, this`selectedAnswer, this`currentQuestionIndex, this`shuffledOptions
      ensures Valid()
      ensures feedback == NoFeedback && selectedAnswer.None?
      ensures currentQuestionIndex == old(currentQuestionIndex) + 1
      ensures questions == old(questions) && score == old(score) && error == old(error)
      ensures currentQuestionIndex < |questions| ==>
                shuffledOptions == Shuffle.FisherYates(questions[currentQuestionIndex].options, draws)
      ensures currentQuestionIndex >= |questions| ==> shuffledOptions == old(shuffledOptions)
      ensures reported.Some? <==> IsGameOver()
      ensures reported.Some? ==> reported.value == score && score <= TotalQuestions
    {
      feedback := NoFeedback;
      selectedAnswer := None;
      if currentQuestionIndex < TotalQuestions {
        currentQuestionIndex := currentQuestionIndex + 1;
      }
      if currentQuestionIndex < |questions| {
        shuffledOptions := Shuffle.ShuffleWhile(questions[currentQuestionIndex].options, draws);
      }
      reported := if IsGameOver() then Some(score) else None;
    }
  }
}
