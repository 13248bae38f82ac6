/**
 * Emoji Guess Challenge: the player picks a category, is shown a sequence of
 * emojis per question and writes a sentence describing it.  A grammar
 * service judges the sentence; a correct sentence scores a point and, after
 * the feedback, moves on to the next question, while an incorrect one is
 * retried.  After the last question the score is reported.
 */
module EmojiGuessChallenge {
  import opened GameTypes

  /** The selectable categories (EMOJI_CATEGORIES), by title. */
  const CategoryTitles: seq<string> := ["Tenses", "Parts of Speech", "Punctuation", "Idioms & Phrases", "Sentence Structures"]

  /** The text shown when the grammar service cannot be reached. */
  const ServiceFailureText: string := "An error occurred while validating your answer."

  datatype View = Categories | Playing | Summary

  /** The grammar service's verdict on one sentence (GrammarValidationResult). */
  datatype ValidationResult = ValidationResult(isCorrect: bool, feedback: string, correctExample: Option<string>)

  class Game {
    var view: View
    var selectedCategory: Option<nat>
    var questions: seq<EmojiQuestion>
    var currentQuestionIndex: nat
    var score: nat
    var isValidating: bool
    var error: bool
    var userAnswer: string
    var showFeedback: bool
    var isCorrect: bool
    var feedbackText: string
    var correctExample: string

    /** The point of a correct verdict whose feedback is still on screen. */
    function Bonus(): nat
      reads this
    {
      if showFeedback && isCorrect then 1 else 0
    }

    /**
     * The score is the number of correct verdicts of this category: one per
     * question passed, plus one for a correct verdict still shown (in the
     * summary, one per question).
     */
    predicate Honest()
      reads this
    {
      if view == Summary then score == currentQuestionIndex + 1
      else score == currentQuestionIndex + Bonus()
    }

    ghost predicate Valid()
      reads this
    {
      && (view == Playing ==> selectedCategory.Some? && |questions| >= TotalQuestions && currentQuestionIndex < |questions|)
      && (view == Summary ==> |questions| >= TotalQuestions && currentQuestionIndex == |questions| - 1
                              && !showFeedback && !isValidating)
      && (isValidating ==> !showFeedback)
      && (if view == Summary then score <= currentQuestionIndex + 1 else score <= currentQuestionIndex + Bonus())
    }

    constructor ()
      ensures Valid() && Honest() && view == Categories
    {
      view := Categories;
      selectedCategory := None;
      questions := [];
      currentQuestionIndex := 0;
      score := 0;
      isValidating := false;
      error := false;
      userAnswer := "";
      showFeedback := false;
      isCorrect := false;
      feedbackText := "";
      correctExample := "";
    }

    /**
     * handleSelectCategory with fetchQuestions' outcome.  The questions are
     * cleared first; fewer than five (or a failed request, None) is an error
     * that stays on the categories with index and score unchanged; otherwise
     * the game starts at the first question with no points.
     */
    method SelectCategory(category: nat, fetched: Option<seq<EmojiQuestion>>)
      requires Valid() && view == Categories && category < |CategoryTitles|
      modifies this`selectedCategory, this`questions, this`currentQuestionIndex, this`score, this`error, this`view
      ensures Valid()
      ensures selectedCategory == Some(category)
      ensures error <==> fetched.None? || |fetched.value| < TotalQuestions
      ensures error ==> view == Categories && questions == [] && currentQuestionIndex == old(currentQuestionIndex) && score == old(score)
      ensures !error ==> view == Playing && questions == fetched.value && currentQuestionIndex == 0 && score == 0
      ensures !error ==> (Honest() <==> Bonus() == 0)
    {
      selectedCategory := Some(category);
      error := false;
      questions := [];
      if fetched.None? || |fetched.value| < TotalQuestions {
        error := true;
        view := Categories;
        return;
      }
      questions, currentQuestionIndex, score := fetched.value, 0, 0;
      view := Playing;
    }

    /** Typing in the answer box, which is enabled while no verdict is pending or shown. */
    method SetAnswer(text: string)
      requires Valid() && view == Playing && !showFeedback && !isValidating
      modifies this`userAnswer
      ensures Valid() && userAnswer == text
      ensures old(Honest()) ==> Honest()
    {
      userAnswer := text;
    }

    /**
     * handleSubmit up to the request: ignored with an empty answer, no
     * current question or a validation in flight; otherwise the validation
     * starts.
     */
    method SubmitStart() returns (started: bool)
      requires Valid() && view == Playing && !showFeedback
      modifies this`isValidating, this`error
      ensures Valid()
      ensures started <==> userAnswer != "" && currentQuestionIndex < |questions| && !old(isValidating)
      ensures started ==> isValidating && !error
      ensures !started ==> isValidating == old(isValidating) && error == old(error)
      ensures old(Honest()) ==> Honest()
    {
      if userAnswer == "" || currentQuestionIndex >= |questions| || isValidating {
        return false;
      }
      isValidating := true;
      error := false;
      started := true;
    }

    /**
     * handleSubmit after the request: a verdict is shown and a correct one
     * scores a point; a failed request (None) is shown as an incorrect answer
     * with an error and no point.
     */
    method SubmitFinish(verdict: Option<ValidationResult>)
      requires Valid() && isValidating
      modifies this`isCorrect, this`feedbackText, this`correctExample, this`showFeedback, this`score, this`error, this`isValidating
      ensures Valid() && showFeedback && !isValidating
      ensures isCorrect <==> verdict.Some? && verdict.value.isCorrect
      ensures score == old(score) + (if isCorrect then 1 else 0)
      ensures verdict.None? ==> error
      ensures verdict.Some? ==> error == old(error)
      ensures verdict.None? ==> feedbackText == ServiceFailureText
      ensures verdict.Some? ==> feedbackText == verdict.value.feedback
      ensures old(Honest()) ==> Honest()
    {
      if verdict.Some? {
        var result := verdict.value;
        isCorrect := result.isCorrect;
        feedbackText := result.feedback;
        correctExample := if result.correctExample.Some? then result.correctExample.value else "";
        showFeedback := true;
        if result.isCorrect {
          score := score + 1;
        }
      } else {
        error := true;
        feedbackText := ServiceFailureText;
        showFeedback := true;
        isCorrect := false;
      }
      isValidating := false;
    }

    /**
     * handleNext from the feedback: the feedback and answer are cleared;
     * after an incorrect verdict the same question is retried; after a
     * correct one the next question follows, or, after the last, the summary
     * is shown and the score reported.
     */
    method Next() returns (reported: Option<int>)
      requires Valid() && view == Playing && showFeedback
      modifies this`showFeedback, this`userAnswer, this`feedbackText, this`correctExample, this`currentQuestionIndex, this`view
      ensures Valid() && !showFeedback && userAnswer == "" && feedbackText == "" && correctExample == ""
      ensures !isCorrect ==> currentQuestionIndex == old(currentQuestionIndex) && view == Playing && reported.None?
      ensures isCorrect && old(currentQuestionIndex) + 1 < |questions| ==>
                currentQuestionIndex == old(currentQuestionIndex) + 1 && view == Playing && reported.None?
      ensures isCorrect && old(currentQuestionIndex) + 1 >= |questions| ==>
                view == Summary && reported == Some(score) && score <= |questions|
      ensures old(Honest()) ==> Honest()
      ensures old(Honest()) && view == Summary ==> reported == Some(|questions|)
    {
      showFeedback := false;
      userAnswer := "";
      feedbackText := "";
      correctExample := "";
      reported := None;
      if isCorrect {
        var nextIndex := currentQuestionIndex + 1;
        if nextIndex >= |questions| {
          reported := Some(score);
          view := Summary;
        } else {
          currentQuestionIndex := nextIndex;
        }
      }
    }

    /**
     * handleNext as written: the same steps as Next, except that the score
     * reported after the last question is `score + 1`, on the assumption that
     * the point just earned is not yet in `score`.  It is already there while
     * its feedback is shown, so a game whose score counts its correct answers
     * reports one point more than it has questions.
     */
    method NextAsWritten() returns (reported: Option<int>)
      requires Valid() && view == Playing && showFeedback
      modifies this`showFeedback, this`userAnswer, this`feedbackText, this`correctExample, this`currentQuestionIndex, this`view
      ensures Valid() && !showFeedback && userAnswer == "" && feedbackText == "" && correctExample == ""
      ensures reported.Some? <==> view == Summary
      ensures reported.Some? ==> reported.value == score + 1
      ensures old(Honest()) && view == Summary ==> reported == Some(|questions| + 1)
    {
      showFeedback := false;
      userAnswer := "";
      feedbackText := "";
      correctExample := "";
      reported := None;
      if isCorrect {
        var nextIndex := currentQuestionIndex + 1;
        if nextIndex >= |questions| {
          reported := Some(score + 1);
          view := Summary;
        } else {
          currentQuestionIndex := nextIndex;
        }
      }
    }

    /** handlePlayAgain from the summary: back to the categories with nothing selected and no points. */
    method PlayAgain()
      requires Valid() && view == Summary
      modifies this`view, this`selectedCategory, this`questions, this`currentQuestionIndex, this`score
      ensures Valid() && Honest()
      ensures view == Categories && selectedCategory.None? && questions == [] && currentQuestionIndex == 0 && score == 0
    {
      view := Categories;
      selectedCategory := None;
      questions := [];
      currentQuestionIndex := 0;
      score := 0;
    }

    /** backToCategories from a question; questions, index and score are kept. */
    method BackToCategories()
      requires Valid() && view == Playing
      modifies this`view, this`selectedCategory
      ensures Valid()
      ensures view == Categories && selectedCategory.None?
      ensures old(Honest()) ==> Honest()
    {
      view := Categories;
      selectedCategory := None;
    }
  }
}
