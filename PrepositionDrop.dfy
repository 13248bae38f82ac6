/**
 * Preposition Drop: five rounds in which a preposition is dragged into the
 * blank of a sentence.  The first drop of a round is scored and the blank
 * then shows the correct answer until a deferred callback moves on.
 */
module PrepositionDrop {
  import opened GameTypes

  class Game {
    var questions: seq<FillQuestion>
    var currentQuestionIndex: nat
    var score: nat
    var error: bool
    var feedback: Feedback
    var answered: bool
    var filledAnswer: Option<string>

    predicate IsGameOver()
      reads this
    {
      currentQuestionIndex >= TotalQuestions
    }

    predicate Playing()
      reads this
    {
      !error && !IsGameOver() && questions != []
    }

    ghost predicate Valid()
      reads this
    {
      && currentQuestionIndex <= TotalQuestions
      && (questions != [] ==> |questions| >= TotalQuestions)
      && (answered <==> feedback != NoFeedback)
      && (answered <==> filledAnswer.Some?)
      && (answered ==> Playing() && filledAnswer.value == questions[currentQuestionIndex].answer)
      && score <= currentQuestionIndex + (if answered then 1 else 0)
    }

    constructor ()
      ensures Valid()
      ensures questions == [] && currentQuestionIndex == 0 && score == 0 && !answered && !error
    {
      questions := [];
      currentQuestionIndex := 0;
      score := 0;
      error := false;
      feedback := NoFeedback;
      answered := false;
      filledAnswer := None;
    }

    /**
     * fetchQuestions with the generator's answer as input (mount, Retry, Play
     * Again): fewer than five questions is an error that changes nothing
     * else; otherwise index, score, answered flag and blank are reset.
     */
    method Fetch(fetched: seq<FillQuestion>)
      requires Valid() && !Playing()
      modifies this`questions, this`currentQuestionIndex, this`score, this`error, this`answered
      modifies this`filledAnswer
      ensures Valid()
      ensures error <==> |fetched| < TotalQuestions
      ensures error ==> questions == old(questions) && currentQuestionIndex == old(currentQuestionIndex)
                        && score == old(score) && answered == old(answered) && filledAnswer == old(filledAnswer)
      ensures !error ==> questions == fetched && currentQuestionIndex == 0 && score == 0
                         && !answered && filledAnswer.None?
    {
      error := false;
      if |fetched| < TotalQuestions {
        error := true;
        return;
      }
      questions := fetched;
      currentQuestionIndex := 0;
      score := 0;
      answered := false;
      filledAnswer := None;
    }

    /**
     * handleDrop with the dropped text.  Ignored once the round is answered;
     * otherwise the round is answered, the score rises by one exactly when
     * the dropped text equals the answer, and the blank shows the correct
     * answer whatever was dropped.
     */
    method Drop(droppedOption: string)
      requires Valid() && Playing()
      modifies this`score, this`feedback, this`answered, this`filledAnswer
      ensures Valid()
      ensures questions == old(questions) && currentQuestionIndex == old(currentQuestionIndex)
      ensures old(answered) ==>
                answered && feedback == old(feedback) && score == old(score) && filledAnswer == old(filledAnswer)
      ensures !old(answered) ==>
                && answered
                && feedback == Judge(droppedOption, questions[currentQuestionIndex].answer)
                && score == old(score) + Points(droppedOption, questions[currentQuestionIndex].answer)
                && filledAnswer == Some(questions[currentQuestionIndex].answer)
    {
      if answered {
        return;
      }
      var current := questions[currentQuestionIndex];
      answered := true;
      if droppedOption == current.answer {
        score := score + 1;
        feedback := Correct;
      } else {
        feedback := Incorrect;
      }
      filledAnswer := Some(current.answer);
    }

    /**
     * The deferred callback of a drop, with the completion effect: feedback,
     * answered flag and blank are cleared and the index moves on (it was
     * below five when the drop happened); at five the score is reported.
     */
    method Advance() returns (reported: Option<int>)
      requires Valid() && answered
      modifies this`feedback, this`answered, this`filledAnswer, this`currentQuestionIndex
      ensures Valid()
      ensures feedback == NoFeedback && !answered && filledAnswer.None?
      ensures currentQuestionIndex == old(currentQuestionIndex) + 1
      ensures questions == old(questions) && score == old(score)
      ensures reported.Some? <==> IsGameOver()
      ensures reported.Some? ==> reported.value == score && score <= TotalQuestions
    {
      feedback := NoFeedback;
      answered := false;
      filledAnswer := None;
      if currentQuestionIndex < TotalQuestions {
        currentQuestionIndex := currentQuestionIndex + 1;
      }
      reported := if IsGameOver() then Some(score) else None;
    }
  }
}
