/**
 * Records shared by the games: the question shapes the games receive from the
 * question generator, the per-question feedback and the configured number of
 * questions per game.
 */
module GameTypes {

  /** Number of questions a session plays (TOTAL_QUESTIONS_PER_GAME). */
  const TotalQuestions: nat := 5

  datatype Option<+T> = None | Some(value: T)

  /** The shared 'none' | 'correct' | 'incorrect' feedback of a round. */
  datatype Feedback = NoFeedback | Correct | Incorrect

  /** A fill-in-the-blank question (GrammarFillQuestion). */
  datatype FillQuestion = FillQuestion(sentence: string, options: seq<string>, answer: string, explanation: string)

  /** A find-the-wrong-word question (GrammarSpotterQuestion). */
  datatype SpotterQuestion = SpotterQuestion(sentence: string, incorrectWord: string, correctWord: string, explanation: string)

  datatype DialogueLine = DialogueLine(id: int, speaker: string, line: string)

  datatype Dialogue = Dialogue(scenario: string, lines: seq<DialogueLine>)

  datatype EmojiQuestion = EmojiQuestion(emojis: seq<string>)

  datatype WordScrambleQuestion = WordScrambleQuestion(word: string, hint: string, level: int)

  datatype PartOfSpeech = Noun | Verb | Adjective | Adverb

  datatype WordToSort = WordToSort(word: string, partOfSpeech: PartOfSpeech)

  datatype WordClassSorterQuestion = WordClassSorterQuestion(words: seq<WordToSort>)

  datatype SentenceWeaverQuestion = SentenceWeaverQuestion(imageSearchQuery: string, sentence: string, hint: string)

  datatype LetterMemoryQuestion = LetterMemoryQuestion(level: int, word: string, definition: string)

  /** The outcome of one answer in the multiple-choice games: correct exactly when the option equals the answer. */
  function Judge(option: string, answer: string): (f: Feedback)
    ensures f != NoFeedback
    ensures f == Correct <==> option == answer
  {
    if option == answer then Correct else Incorrect
  }

  /** The score change of one answer: one point exactly for the correct option. */
  function Points(option: string, answer: string): (p: nat)
    ensures p <= 1
    ensures p == 1 <==> Judge(option, answer) == Correct
  {
    if option == answer then 1 else 0
  }

  /**
   * One click on an option in the click-to-answer games (Grammar Fill, the
   * Quiz Wheel, Verb Bomb Defuse and the maze's question window), as
   * written: the guard on the current selection lets the click through
   * whenever the selection is JavaScript-falsy, which includes a selected
   * empty string.
   * The result is the new selection and the new score.
   */
  function ClickAsWritten(selected: Option<string>, score: int, option: string, answer: string): (r: (Option<string>, int))
  {
    if selected.Some? && selected.value != "" then (selected, score)
    else (Some(option), score + Points(option, answer))
  }

  /** With an empty correct option, clicking it twice in one round scores two points. */
  lemma EmptyOptionScoresTwice()
    ensures var first := ClickAsWritten(None, 0, "", "");
            ClickAsWritten(first.0, first.1, "", "") == (Some(""), 2)
  {
  }
}
