/**
 * Verb Bomb Defuse: five multiple-choice rounds against a ten-second
 * countdown.  A one-second tick lowers the timer while a round is unanswered;
 * at zero the answer 'timeout' is submitted on the player's behalf.
 */
module VerbBombDefuse {
  import opened GameTypes

  /** TIMER_SECONDS. */
  const TimerSeconds: int := 10

  /** The answer submitted when the countdown runs out. */
  const TimeoutAnswer: string := "timeout"

  datatype View = Instructions | Playing | Summary

  /**
   * The condition under which the countdown interval runs, as written: in the
   * game view, unanswered, not over and not loading.  It does not mention a
   * failed fetch.
   */
  predicate CountdownGuardAsWritten(view: View, selected: Option<string>, index: int, isLoading: bool)
  {
    view == Playing && selected.None? && index < TotalQuestions && !isLoading
  }

  class Game {
    var view: View
    var questions: seq<FillQuestion>
    var currentQuestionIndex: nat
    var score: nat
    var isLoading: bool
    var error: bool
    var feedback: Feedback
    var selectedAnswer: Option<string>
    var timer: int
    var showExplosion: bool

    predicate IsGameOver()
      reads this
    {
      currentQuestionIndex >= TotalQuestions
    }

    /** The round screen is rendered: game view, loaded, no error, and a current question exists. */
    predicate RoundShown()
      reads this
    {
      view == Playing && !isLoading && !error && currentQuestionIndex < |questions|
    }

    /**
     * The countdown runs: the guard as written, and also no failed fetch (see
     * CountdownGuardAsWritten).
     */
    predicate CountdownRunning()
      reads this
    {
      CountdownGuardAsWritten(view, selectedAnswer, currentQuestionIndex, isLoading) && !error
    }

    /** The "Time's up!" line of the feedback panel. */
    predicate TimesUpShown()
      reads this
    {
      selectedAnswer.Some? && feedback == Incorrect && selectedAnswer.value == TimeoutAnswer
    }

    ghost predicate Valid()
      reads this
    {
      && currentQuestionIndex <= TotalQuestions
      && 0 <= timer <= TimerSeconds
      && (view == Playing && !isLoading && !error ==> |questions| >= TotalQuestions)
      && (view == Playing && !isLoading ==> !IsGameOver())
      && (view == Summary ==> IsGameOver() && !isLoading)
      && (view == Instructions ==> !isLoading)
      && (isLoading ==> !error)
      && (selectedAnswer.None? <==> feedback == NoFeedback)
      && (selectedAnswer.Some? ==> RoundShown())
      && (selectedAnswer.None? ==> timer >= 1 && !showExplosion)
      && (showExplosion ==> feedback == Incorrect)
      && score <= currentQuestionIndex + (if selectedAnswer.Some? then 1 else 0)
    }

    constructor ()
      ensures Valid()
      ensures view == Instructions && questions == [] && timer == TimerSeconds && !isLoading && !error
    {
      view := Instructions;
      questions := [];
      currentQuestionIndex := 0;
      score := 0;
      isLoading := false;
      error := false;
      feedback := NoFeedback;
      selectedAnswer := None;
      timer := TimerSeconds;
      showExplosion := false;
    }

    /** startGame (Start Game, Play Again): a fetch begins and the game view is entered. */
    method StartGame()
      requires Valid() && (view == Instructions || view == Summary)
      modifies this`view, this`isLoading, this`error
      ensures Valid()
      ensures view == Playing && isLoading && !error && !CountdownRunning()
      ensures questions == old(questions) && score == old(score) && currentQuestionIndex == old(currentQuestionIndex)
    {
      isLoading := true;
      error := false;
      view := Playing;
    }

    /** The Retry button of the error screen: a new fetch begins. */
    method Retry()
      requires Valid() && view == Playing && !isLoading && error
      modifies this`isLoading, this`error
      ensures Valid()
      ensures view == Playing && isLoading && !error && !CountdownRunning()
      ensures questions == old(questions) && score == old(score) && currentQuestionIndex == old(currentQuestionIndex)
    {
      isLoading := true;
      error := false;
    }

    /**
     * The end of fetchQuestions (`fetched` is the generator's answer) and the
     * game-start effect that follows once loading ends in the game view:
     * fewer than five questions is an error that keeps the old list; in both
     * cases index and score become 0, the selection is cleared and the timer
     * restored to ten seconds.
     */
    method FetchDone(fetched: seq<FillQuestion>)
      requires Valid() && isLoading && view == Playing
      modifies this`questions, this`currentQuestionIndex, this`score, this`isLoading, this`error
      modifies this`selectedAnswer, this`timer
      ensures Valid()
      ensures !isLoading && view == Playing
      ensures error <==> |fetched| < TotalQuestions
      ensures questions == if error then old(questions) else fetched
      ensures currentQuestionIndex == 0 && score == 0 && selectedAnswer.None? && timer == TimerSeconds
      ensures CountdownRunning() <==> !error
    {
      if |fetched| < TotalQuestions {
        error := true;
      } else {
        questions := fetched;
      }
      isLoading := false;
      currentQuestionIndex := 0;
      score := 0;
      selectedAnswer := None;
      timer := TimerSeconds;
    }

    /**
     * handleAnswerClick (also called with 'timeout' by the countdown).  A
     * second answer changes nothing; an accepted one stops the countdown,
     * scores one point exactly when it equals the answer, and otherwise sets
     * off the explosion.
     */
    method AnswerClick(option: string)
      requires Valid() && RoundShown()
      modifies this`score, this`feedback, this`selectedAnswer, this`showExplosion
      ensures Valid()
      ensures !CountdownRunning()
      ensures view == old(view) && questions == old(questions) && currentQuestionIndex == old(currentQuestionIndex)
      ensures timer == old(timer)
      ensures old(selectedAnswer).Some? ==>
                selectedAnswer == old(selectedAnswer) && feedback == old(feedback)
                && score == old(score) && showExplosion == old(showExplosion)
      ensures old(selectedAnswer).None? ==>
                && selectedAnswer == Some(option)
                && feedback == Judge(option, questions[currentQuestionIndex].answer)
                && score == old(score) + Points(option, questions[currentQuestionIndex].answer)
                && (showExplosion <==> feedback == Incorrect)
      ensures TimesUpShown() && old(selectedAnswer).None? ==> option == TimeoutAnswer
    {
      if selectedAnswer.Some? {
        return;
      }
      selectedAnswer := Some(option);
      var current := questions[currentQuestionIndex];
      if option == current.answer {
        score := score + 1;
        feedback := Correct;
      } else {
        feedback := Incorrect;
        showExplosion := true;
      }
    }

    /**
     * One tick of the countdown interval, and the timeout effect it can
     * trigger: the timer drops by one, and on reaching zero the answer
     * 'timeout' is submitted, which is scored incorrect (unless the correct
     * answer is literally 'timeout') and shows "Time's up".
     */
    method Tick()
      requires Valid() && CountdownRunning()
      modifies this`score, this`feedback, this`selectedAnswer, this`timer, this`showExplosion
      ensures Valid()
      ensures timer == old(timer) - 1
      ensures view == old(view) && questions == old(questions) && currentQuestionIndex == old(currentQuestionIndex)
      ensures timer > 0 ==> selectedAnswer.None? && score == old(score) && CountdownRunning()
      ensures timer == 0 ==>
                && selectedAnswer == Some(TimeoutAnswer)
                && feedback == Judge(TimeoutAnswer, questions[currentQuestionIndex].answer)
                && score == old(score) + Points(TimeoutAnswer, questions[currentQuestionIndex].answer)
                && !CountdownRunning()
      ensures timer == 0 && questions[currentQuestionIndex].answer != TimeoutAnswer ==>
                TimesUpShown() && score == old(score) && showExplosion
    {
      if timer - 1 <= 0 && selectedAnswer.None? && view == Playing {
        // the effect runs on the decremented timer; the answer does not read the timer
        AnswerClick(TimeoutAnswer);
      }
      timer := timer - 1;
    }

    /**
     * resetForNextQuestion, the deferred callback of an answer, and the
     * completion effect: feedback, selection and explosion are cleared, the
     * timer is restored, and the index moves on (the game was not over when
     * the answer was given); at the fifth question the score is reported and
     * the summary shown, which stops the countdown.
     */
    method ResetForNextQuestion() returns (reported: Option<int>)
      requires Valid() && selectedAnswer.Some?
      modifies this`feedback, this`selectedAnswer, this`showExplosion, this`timer, this`currentQuestionIndex, this`view
      ensures Valid()
      ensures feedback == NoFeedback && selectedAnswer.None? && !showExplosion && timer == TimerSeconds
      ensures currentQuestionIndex == old(currentQuestionIndex) + 1
      ensures questions == old(questions) && score == old(score)
      ensures error == old(error) && isLoading == old(isLoading)
      ensures reported.Some? <==> IsGameOver()
      ensures reported.Some? ==> reported.value == score && score <= TotalQuestions && view == Summary
                                 && !CountdownRunning()
      ensures reported.None? ==> view == Playing && CountdownRunning()
    {
      feedback := NoFeedback;
      selectedAnswer := None;
      showExplosion := false;
      timer := TimerSeconds;
      if !IsGameOver() {
        currentQuestionIndex := currentQuestionIndex + 1;
      }
      reported := None;
      if IsGameOver() {
        reported := Some(score);
        view := Summary;
      }
    }
  }

  /**
   * A first Start Game whose fetch fails: the error screen is shown, yet the
   * countdown guard as written holds, so the interval keeps running behind it
   * and, at zero, the timeout answer would be scored against a question that
   * does not exist.
   */
  method FailedStartKeepsCountdown() returns (g: Game)
    ensures g.error && g.view == Playing
    ensures CountdownGuardAsWritten(g.view, g.selectedAnswer, g.currentQuestionIndex, g.isLoading)
    ensures g.currentQuestionIndex >= |g.questions|
    ensures !g.CountdownRunning()
  {
    g := new Game();
    g.StartGame();
    g.FetchDone([]);
  }
}
