/**
 * Grammar Spotter: five rounds in which the player clicks the wrong word of a
 * sentence.  The sentence is shown as its single-space-separated tokens; a
 * token is the wrong word when, without punctuation and ignoring case, it
 * equals the question's incorrect word.
 */
module GrammarSpotter {
  import opened GameTypes
  import Text

  /** The tokens the sentence is shown as: `sentence.split(' ')`. */
  function Tokens(q: SpotterQuestion): (ts: seq<string>)
    ensures |ts| >= 1 && Text.AllSpaceFree(ts)
    ensures Text.Join(ts) == q.sentence
  {
    Text.JoinSplit(q.sentence);
    Text.Split(q.sentence)
  }

  /**
   * The rule used both to score a click and to highlight the correction: the
   * token with . , ! ? removed equals the incorrect word up to ASCII case.
   */
  predicate IsErrorToken(token: string, q: SpotterQuestion)
  {
    Text.EqualsIgnoringCase(Text.Clean(token), q.incorrectWord)
  }

  /** Trailing punctuation on a token does not change whether it is the error token. */
  lemma ErrorTokenIgnoresPunctuation(token: string, p: char, q: SpotterQuestion)
    requires Text.IsPunctuation(p)
    ensures IsErrorToken(token + [p], q) <==> IsErrorToken(token, q)
  {
    Text.CleanConcat(token, [p]);
    assert Text.Clean([p]) == [];
    assert Text.Clean(token) + [] == Text.Clean(token);
  }

  /** A token that is the incorrect word in another case is the error token. */
  lemma ErrorTokenIgnoresCase(token: string, q: SpotterQuestion)
    requires forall i :: 0 <= i < |token| ==> !Text.IsPunctuation(token[i])
    requires Text.Lower(token) == Text.Lower(q.incorrectWord)
    ensures IsErrorToken(token, q)
  {
    Text.CleanFixed(token);
  }

  class Game {
    var questions: seq<SpotterQuestion>
    var currentQuestionIndex: nat
    var score: nat
    var error: bool
    var feedback: Feedback
    var answered: bool

    predicate IsGameOver()
      reads this
    {
      currentQuestionIndex >= TotalQuestions
    }

    predicate Playing()
      reads this
    {
      !error && !IsGameOver() && questions != []
    }

    ghost predicate Valid()
      reads this
    {
      && currentQuestionIndex <= TotalQuestions
      && (questions != [] ==> |questions| >= TotalQuestions)
      && (answered <==> feedback != NoFeedback)
      && (answered ==> Playing())
      && score <= currentQuestionIndex + (if answered then 1 else 0)
    }

    constructor ()
      ensures Valid()
      ensures questions == [] && currentQuestionIndex == 0 && score == 0 && !answered && !error
    {
      questions := [];
      currentQuestionIndex := 0;
      score := 0;
      error := false;
      feedback := NoFeedback;
      answered := false;
    }

    /**
     * fetchQuestions with the generator's answer as input: fewer than five
     * questions is an error that changes nothing else; otherwise index, score
     * and the answered flag are reset.
     */
    method Fetch(fetched: seq<SpotterQuestion>)
      requires Valid() && !Playing()
      modifies this`questions, this`currentQuestionIndex, this`score, this`error, this`answered
      ensures Valid()
      ensures error <==> |fetched| < TotalQuestions
      ensures error ==> questions == old(questions) && currentQuestionIndex == old(currentQuestionIndex)
                        && score == old(score) && answered == old(answered)
      ensures !error ==> questions == fetched && currentQuestionIndex == 0 && score == 0 && !answered
    {
      error := false;
      if |fetched| < TotalQuestions {
        error := true;
        return;
      }
      questions := fetched;
      currentQuestionIndex := 0;
      score := 0;
      answered := false;
    }

    /**
     * handleWordClick on one of the current sentence's tokens.  Ignored once
     * answered; otherwise the round is answered and the score rises by one
     * exactly when the token is the error token.
     */
    method WordClick(word: string)
      requires Valid() && Playing() && word in Tokens(questions[currentQuestionIndex])
      modifies this`score, this`feedback, this`answered
      ensures Valid()
      ensures questions == old(questions) && currentQuestionIndex == old(currentQuestionIndex)
      ensures old(answered) ==> answered && feedback == old(feedback) && score == old(score)
      ensures !old(answered) ==>
                && answered
                && (feedback == Correct <==> IsErrorToken(word, questions[currentQuestionIndex]))
                && score == old(score) + (if feedback == Correct then 1 else 0)
    {
      if answered {
        return;
      }
      answered := true;
      var current := questions[currentQuestionIndex];
      var cleanedWord := Text.Clean(word);
      if Text.Lower(cleanedWord) == Text.Lower(current.incorrectWord) {
        score := score + 1;
        feedback := Correct;
      } else {
        feedback := Incorrect;
      }
    }

    /**
     * The deferred callback of a click, with the completion effect: the
     * feedback is cleared and, the clicked round being below five, the index
     * moves on and the answered flag is cleared; at five the score is
     * reported.
     */
    method Advance() returns (reported: Option<int>)
      requires Valid() && answered
      modifies this`feedback, this`currentQuestionIndex, this`answered
      ensures Valid()
      ensures feedback == NoFeedback && !answered
      ensures currentQuestionIndex == old(currentQuestionIndex) + 1
      ensures questions == old(questions) && score == old(score)
      ensures reported.Some? <==> IsGameOver()
      ensures reported.Some? ==> reported.value == score && score <= TotalQuestions
    {
      feedback := NoFeedback;
      if currentQuestionIndex < TotalQuestions {
        currentQuestionIndex := currentQuestionIndex + 1;
        answered := false;
      }
      reported := if IsGameOver() then Some(score) else None;
    }
  }
}
