# Grammar Galaxy games, modelled in Dafny

Grammar Galaxy is a collection of small browser games for practising English
grammar. Each game is a React component. It fetches a batch of generated
questions, runs a few rounds and reports the final score to the app. Shared
screens show the score summary.

This project models the twelve game components and the score summary:

- Each game is a `class Game` in its own module. Its fields are the
  component's state variables.
- Each event handler is a method that changes those fields. Each deferred
  callback (a `setTimeout`) is a separate method. Its precondition is the
  state that scheduled it.
- An effect that fires right after a state change is folded into the method
  that causes the change. The score-summary report and the shuffle of the next
  question's options are examples. A completion report comes back as the
  method's `reported: Option<int>` result.
- The question generator's answer is an input parameter (`fetched`). A
  failed request is `None` or a list that is too short, following what each
  game checks.
- Every `Math.random()` draw is an input parameter whose range the
  precondition states. The Fisher–Yates shuffles take a sequence of draws
  (`Shuffle.ValidDraws`).
- A handler that is only reachable through a rendered button or tile states
  that rendering condition as its precondition.

Shared modules:

- `GameTypes`: the question records, the round feedback, and the
  five-questions-per-game constant.
- `Shuffle`: the two Fisher–Yates loop shapes the games use, specified by
  `FisherYates` and proved to be permutations.
- `Sorting`: ordering by numeric id, as `sort((a, b) => a.id - b.id)` does,
  and removal by id, as `filter` does.
- `Text`: punctuation stripping, ASCII case mapping, and `split(' ')` /
  `join(' ')` with their round trip.
- `ScoreSummary`: the percentage and the message tier.

## Model

| member | source | states |
|---|---|---|
| GameTypes.Judge | components/games/GrammarFill.tsx:76-81 | an answer's feedback is correct exactly when the option equals the answer, and is never 'none' |
| GameTypes.Points | components/games/GrammarFill.tsx:76-78 | an answer scores one point exactly when it is judged correct, otherwise none |
| GameTypes.EmptyOptionScoresTwice | components/games/GrammarFill.tsx:72 | the `if (selectedAnswer) return` guard lets a second click through after an empty-string option was chosen, so one round scores two points |
| Shuffle.Swap | components/games/GrammarFill.tsx:17-18 | the destructuring swap exchanges the two positions and leaves every other position alone |
| Shuffle.SwapPermutes | components/games/GrammarFill.tsx:17-18 | a swap keeps the same multiset of elements |
| Shuffle.ShuffledPermutes | components/games/GrammarFill.tsx:11-21 | any number of shuffle steps keeps the same multiset of elements |
| Shuffle.ShuffledConstant | components/games/WordScrambler.tsx:20-31 | shuffling a sequence whose elements are all equal gives it back unchanged |
| Shuffle.ShuffledSkip | components/games/WordScrambler.tsx:20-31 | steps that draw their own index change nothing |
| Shuffle.FisherYates | components/games/GrammarFill.tsx:11-21 | the shuffle of a list is a permutation of it of the same length |
| Shuffle.ShuffleWhile | components/games/GrammarFill.tsx:11-21 | the `while (currentIndex !== 0)` loop over a copy computes FisherYates of its input under the given draws, a permutation |
| Shuffle.ShuffleFor | components/games/LetterMemory.tsx:17-24 | the down-counting `for` loop over a copy computes FisherYates of its input under the given draws, a permutation |
| Sorting.Insert | components/games/DialogueBuilder.tsx:76 | inserting keeps every element and adds one |
| Sorting.InsertSorted | components/games/DialogueBuilder.tsx:76 | inserting into a key-ordered list keeps it ordered |
| Sorting.SortBy | components/games/DialogueBuilder.tsx:76 | sorting by id gives a permutation of the input that is ordered by id |
| Sorting.SortedHeads | components/games/WordScrambler.tsx:135 | two id-ordered arrangements of the same distinct-id elements start with the same element |
| Sorting.SortedUnique | components/games/WordScrambler.tsx:135 | with distinct ids there is exactly one id-ordered arrangement of a multiset |
| Sorting.RemoveKey | components/games/DialogueBuilder.tsx:105 | filtering out an id keeps an element exactly when its id is another, never lengthens the list, and shortens it when the id occurs; order and multiplicity are fixed by RemoveKeySingle and RemoveKeyConcat |
| Sorting.RemoveKeySingle | components/games/DialogueBuilder.tsx:105 | filtering a one-element list keeps the element exactly when its id is not the filtered id |
| Sorting.RemoveKeyConcat | components/games/DialogueBuilder.tsx:105 | filtering distributes over concatenation, so the kept elements keep their order and multiplicity |
| Sorting.RemoveKeyDistinct | components/games/WordScrambler.tsx:113 | filtering keeps ids distinct |
| Sorting.NoKeyKept | components/games/DialogueBuilder.tsx:105 | filtering an absent id returns the list unchanged |
| Sorting.RemoveKeyRemovesOne | components/games/WordScrambler.tsx:113 | with distinct ids, filtering an element's id removes exactly that one element |
| Sorting.DistinctKeysPermutation | components/games/DialogueBuilder.tsx:76-78 | distinct ids survive any rearrangement |
| Text.Clean | components/games/GrammarSpotter.tsx:56 | stripping punctuation never lengthens a string |
| Text.CleanChars | components/games/GrammarSpotter.tsx:56 | stripping punctuation leaves no punctuation and keeps exactly the non-punctuation characters |
| Text.CleanFixed | components/games/GrammarSpotter.tsx:56 | a word without punctuation is unchanged by stripping |
| Text.CleanConcat | components/games/GrammarSpotter.tsx:56 | stripping distributes over concatenation |
| Text.CleanIdempotent | components/games/GrammarSpotter.tsx:56 | stripping twice is stripping once |
| Text.LowerChar | components/games/GrammarSpotter.tsx:58 | `toLowerCase` on one character, restricted to ASCII: 'A'..'Z' go to 'a'..'z', every other character is kept, and no capital 'A'..'Z' is left |
| Text.UpperChar | components/games/LetterMemory.tsx:74 | `toUpperCase` on one character, restricted to ASCII: 'a'..'z' go to 'A'..'Z', every other character is kept, and no small 'a'..'z' is left |
| Text.Lower | components/games/GrammarSpotter.tsx:58 | ASCII lower-casing keeps the length and works character by character |
| Text.Upper | components/games/LetterMemory.tsx:74 | ASCII upper-casing keeps the length and works character by character |
| Text.LowerIdempotent | components/games/GrammarSpotter.tsx:58 | lower-casing twice is lower-casing once |
| Text.EqualsIgnoringCaseCharwise | components/games/GrammarSpotter.tsx:58 | a case-insensitive comparison holds exactly when the lengths agree and every position agrees after lower-casing |
| Text.Split | components/games/GrammarSpotter.tsx:81 | `split(' ')` returns at least one piece and no piece contains a space |
| Text.JoinSplit | components/games/GrammarSpotter.tsx:81 | joining the split pieces with spaces gives back the sentence |
| Text.SplitWord | components/games/SentenceWeaver.tsx:70 | a space-free word splits into itself |
| Text.SplitAfterWord | components/games/SentenceWeaver.tsx:70 | splitting a word followed by a space and a rest gives the word then the rest's pieces |
| Text.SplitJoin | components/games/SentenceWeaver.tsx:70 | splitting a space-joined list of space-free words gives the list back |
| Text.JoinInjective | components/games/SentenceWeaver.tsx:117 | two non-empty lists of space-free words join to the same sentence exactly when they are equal |
| ScoreSummary.Percentage | components/shared/ScoreSummary.tsx:13 | `Math.round(score / total * 100)` in exact arithmetic: the integer nearest to 100·score/total, rounding halves up, and 0 when there is no total |
| ScoreSummary.PercentageRange | components/shared/ScoreSummary.tsx:13 | a score between 0 and the total gives a percentage between 0 and 100 |
| ScoreSummary.PercentageExtremes | components/shared/ScoreSummary.tsx:13 | a full score gives 100 and a zero score gives 0 |
| ScoreSummary.PercentageMonotone | components/shared/ScoreSummary.tsx:13 | a higher score never gives a lower percentage |
| ScoreSummary.TierOf | components/shared/ScoreSummary.tsx:15-20 | the tier is Excellent above 90, Great Job above 70 up to 90, and Good Effort otherwise |
| ScoreSummary.Message | components/shared/ScoreSummary.tsx:15-20 | the message shown is the one for the percentage's tier, each in exactly its range |
| ScoreSummary.TierMonotone | components/shared/ScoreSummary.tsx:13-20 | a higher score never shows a lower message tier |
| GrammarFill.Game.constructor | components/games/GrammarFill.tsx:24-31 | the game starts with no questions, index and score 0, and nothing selected |
| GrammarFill.Game.Fetch | components/games/GrammarFill.tsx:33-51 | fewer than five questions sets the error and changes nothing else; otherwise the list is installed, index, score and selection reset, and the first question's options shuffled |
| GrammarFill.Game.AnswerClick | components/games/GrammarFill.tsx:70-81 | only the first click of a round counts: it selects the option, judges it against the answer and adds a point exactly when correct |
| GrammarFill.Game.Advance | components/games/GrammarFill.tsx:83-89 | the callback clears the feedback and selection and moves to the next question with freshly shuffled options (kept once past the last question); questions, score and error are kept; the score is reported, at most five, exactly when the game is over |
| GrammarQuizWheel.TargetAngleRange | components/games/GrammarQuizWheel.tsx:74-77 | the wheel turns 8 to 11 full spins and stops with the drawn segment under the pointer |
| GrammarQuizWheel.Game.constructor | components/games/GrammarQuizWheel.tsx:31-43 | the wheel starts on the instructions screen, not spinning, with no category |
| GrammarQuizWheel.Game.HandleSpin | components/games/GrammarQuizWheel.tsx:69-83 | a spin while spinning is ignored; otherwise the wheel spins and the error is cleared, with the game state untouched |
| GrammarQuizWheel.Game.FinishSpin | components/games/GrammarQuizWheel.tsx:84-87 | when the spin stops the category's questions are fetched: too few leaves the instructions with an error; otherwise play starts at question 0 with score 0 |
| GrammarQuizWheel.Game.FetchQuestions | components/games/GrammarQuizWheel.tsx:46-66 | fewer than five questions is an error that returns to the instructions and keeps the game state; otherwise the questions are installed and play starts at question 0 with score 0 and no selection |
| GrammarQuizWheel.Game.OptionsEffect | components/games/GrammarQuizWheel.tsx:103-107 | when there is a current question its options are shown as a shuffle of them (a permutation); otherwise the shown options stay |
| GrammarQuizWheel.Game.AnswerClick | components/games/GrammarQuizWheel.tsx:109-121 | only the first click of a round counts, judged against the answer, one point when correct |
| GrammarQuizWheel.Game.Advance | components/games/GrammarQuizWheel.tsx:96-107 | the callback and its effects as one step: the index moves on, the next options are a shuffle of the next question's, the completion is reported exactly once, when the index reaches five, and the game view never points past the last question |
| GrammarQuizWheel.Game.RenderReadsMissingQuestion | components/games/GrammarQuizWheel.tsx:198-200 | the game view's render would read a question past the end of the list |
| GrammarQuizWheel.Game.AdvanceAsWritten | components/games/GrammarQuizWheel.tsx:122-128 | the callback alone moves the index on with the game view still shown; the render then reads a missing question exactly when five questions were fetched and the fifth was answered |
| GrammarQuizWheel.Game.PlayAgain | components/games/GrammarQuizWheel.tsx:90-94 | Play Again returns to the wheel with no category and no questions; it changes nothing else |
| VerbBombDefuse.Game.constructor | components/games/VerbBombDefuse.tsx:24-35 | the game starts on the instructions screen with a full timer |
| VerbBombDefuse.Game.StartGame | components/games/VerbBombDefuse.tsx:117-120 | Start shows the game screen and begins loading; no countdown runs while loading |
| VerbBombDefuse.Game.Retry | components/games/VerbBombDefuse.tsx:152 | Retry clears the error and loads again |
| VerbBombDefuse.Game.FetchDone | components/games/VerbBombDefuse.tsx:39-54 | too few questions is an error; the round state resets either way, and the countdown runs exactly when there is no error |
| VerbBombDefuse.Game.AnswerClick | components/games/VerbBombDefuse.tsx:66-82 | the first answer stops the countdown and is judged; a wrong answer sets off the explosion |
| VerbBombDefuse.Game.Tick | components/games/VerbBombDefuse.tsx:93-107 | each second lowers the timer by one; at zero the answer "timeout" is given and judged like a click, so it is incorrect unless the question's answer is literally "timeout" |
| VerbBombDefuse.Game.ResetForNextQuestion | components/games/VerbBombDefuse.tsx:56-64 | the next round starts with a full timer and a running countdown, with questions, score, error and loading flag kept, or the game ends and reports a score of at most five |
| VerbBombDefuse.FailedStartKeepsCountdown | components/games/VerbBombDefuse.tsx:93-101 | after a failed first fetch the countdown guard as written still holds although there is no question to time |
| PrepositionDrop.Game.constructor | components/games/PrepositionDrop.tsx:11-19 | the game starts with no questions, index and score 0 |
| PrepositionDrop.Game.Fetch | components/games/PrepositionDrop.tsx:21-40 | fewer than five questions is an error that changes nothing else; otherwise index and score reset |
| PrepositionDrop.Game.Drop | components/games/PrepositionDrop.tsx:54-70 | only the first drop of a round counts: it fills the blank, judges it and scores one point when correct |
| PrepositionDrop.Game.Advance | components/games/PrepositionDrop.tsx:72-79 | the callback empties the blank and moves on; the score is reported exactly when the game is over |
| GrammarSpotter.Tokens | components/games/GrammarSpotter.tsx:81 | the sentence's clickable words are space-free and join back to the sentence |
| GrammarSpotter.ErrorTokenIgnoresPunctuation | components/games/GrammarSpotter.tsx:56 | trailing punctuation on a clicked word does not change whether it is the wrong word |
| GrammarSpotter.ErrorTokenIgnoresCase | components/games/GrammarSpotter.tsx:58 | a clicked word that differs from the wrong word only in letter case is the wrong word |
| GrammarSpotter.Game.constructor | components/games/GrammarSpotter.tsx:11-17 | the game starts with no questions, index and score 0 |
| GrammarSpotter.Game.Fetch | components/games/GrammarSpotter.tsx:19-37 | fewer than five questions is an error that changes nothing else; otherwise index and score reset |
| GrammarSpotter.Game.WordClick | components/games/GrammarSpotter.tsx:51-63 | only the first click of a round counts: it is correct exactly when the cleaned, lower-cased word equals the wrong word, and then scores one point |
| GrammarSpotter.Game.Advance | components/games/GrammarSpotter.tsx:65-71 | the callback moves on; the score is reported exactly when the game is over |
| GrammarMaze.DoorKey | components/games/GrammarMaze.tsx:181 | a door's key is the three-character `row_col` string |
| GrammarMaze.DoorKeyInjective | components/games/GrammarMaze.tsx:181 | two cells of the grid have the same door key exactly when they are the same cell |
| GrammarMaze.ConfigsWellFormed | components/games/GrammarMaze.tsx:13-64 | every maze is 5 by 5, starts at the top-left, ends at the bottom-right and has exactly three locked doors, each on a door cell |
| GrammarMaze.UnlockedDoors | components/games/GrammarMaze.tsx:241-242 | the unlocked doors are exactly the keys whose lock flag is false |
| GrammarMaze.UnlockedBound | components/games/GrammarMaze.tsx:241-242 | the unlocked count never exceeds the door count |
| GrammarMaze.UnlockOne | components/games/GrammarMaze.tsx:200 | unlocking a locked door adds exactly that door to the unlocked ones |
| GrammarMaze.DoorTotal | components/games/GrammarMaze.tsx:221 | the summary's total is three doors for every maze |
| GrammarMaze.NoneUnlocked | components/games/GrammarMaze.tsx:134 | a fresh maze has no unlocked door |
| GrammarMaze.QuestionModal.constructor | components/games/GrammarMaze.tsx:66-72 | the question dialog opens with no selection |
| GrammarMaze.QuestionModal.Select | components/games/GrammarMaze.tsx:74-78 | only the first selection counts and is judged against the answer |
| GrammarMaze.QuestionModal.Settle | components/games/GrammarMaze.tsx:79-83 | the dialog reports whether the selection was the answer and clears itself |
| GrammarMaze.Game.constructor | components/games/GrammarMaze.tsx:118-129 | the maze starts loading with no open question |
| GrammarMaze.Game.Reset | components/games/GrammarMaze.tsx:131-143 | a reset picks the drawn maze, locks all its doors, puts the player at the start and zeroes the score, keeping the question pool |
| GrammarMaze.FreshBoard | components/games/GrammarMaze.tsx:131-143 | a reset board of every maze is valid: the start cell is open and not the exit, and the score of 0 matches the doors opened, none |
| GrammarMaze.UnlockKeepsBoard | components/games/GrammarMaze.tsx:196-207 | opening a locked door keeps the board valid with one more point, never more points than doors |
| GrammarMaze.Game.Retry | components/games/GrammarMaze.tsx:218 | Retry clears the error and loads again |
| GrammarMaze.Game.FetchDone | components/games/GrammarMaze.tsx:145-158 | a pool that is too small is an error and keeps the old pool; otherwise the pool is replaced |
| GrammarMaze.Game.Move | components/games/GrammarMaze.tsx:170-194 | a move into a wall, off the grid, after the end or with a question open does nothing; a locked door opens its question; otherwise the player steps there |
| GrammarMaze.Game.OpenQuestion | components/games/GrammarMaze.tsx:180-186 | a locked door shows the pool's current question, cycling through the pool |
| GrammarMaze.Game.StepTo | components/games/GrammarMaze.tsx:189-193 | the player moves; reaching the end cell ends the game and reports a score of at most the door count |
| GrammarMaze.Game.AnswerQuestion | components/games/GrammarMaze.tsx:196-207 | a correct answer unlocks the door and scores one point; a wrong one keeps it locked |
| GrammarMaze.Game.ShowNextQuestion | components/games/GrammarMaze.tsx:208-213 | after a wrong answer the next pool question is shown for the same door |
| LetterMemory.Cumulative | components/games/LetterMemory.tsx:26-30 | the points of all levels up to a level total at most 60, and exactly 60 after the last level |
| LetterMemory.FindWord | components/games/LetterMemory.tsx:64-66 | the chosen word is in the pool, of the level and of the level's length; there is none exactly when no pool word fits |
| LetterMemory.FindWordFirst | components/games/LetterMemory.tsx:66 | the chosen word is the first pool word that fits the level, as `find` returns |
| LetterMemory.FlipCard | components/games/LetterMemory.tsx:96 | flipping a card turns up exactly that card |
| LetterMemory.MatchLetter | components/games/LetterMemory.tsx:106-108 | a match marks every card with that letter as matched |
| LetterMemory.UnflipUnmatched | components/games/LetterMemory.tsx:113-115 | a mismatch turns down every card that is not matched |
| LetterMemory.FaceDown | components/games/LetterMemory.tsx:76-81 | a level's cards carry the shuffled letters, numbered by position, all face down and unmatched |
| LetterMemory.FreshDeal | components/games/LetterMemory.tsx:74-81 | a level's deal holds every letter of the word twice, all face down, none turned, and is not yet fully matched |
| LetterMemory.FlipKeepsRow | components/games/LetterMemory.tsx:95-97 | turning up a face-down card keeps at most two distinct turned cards, each face up with its letter |
| LetterMemory.MatchKeepsRow | components/games/LetterMemory.tsx:106-109 | a match keeps the dealt letters and clears the turned cards |
| LetterMemory.UnflipKeepsRow | components/games/LetterMemory.tsx:113-116 | a turn-down keeps the dealt letters and clears the turned cards |
| LetterMemory.Game.constructor | components/games/LetterMemory.tsx:33-43 | the game starts on the instructions screen, loading, at level 1 with no points |
| LetterMemory.Game.FetchWords | components/games/LetterMemory.tsx:45-58 | an empty word list is an error; otherwise it becomes the word pool |
| LetterMemory.Game.LevelCompleteCheck | components/games/LetterMemory.tsx:122-129 | once every card is matched, the level's points are added and the level summary shows |
| LetterMemory.Game.SetupLevel | components/games/LetterMemory.tsx:64-87 | a level with no fitting word is an error; otherwise its shuffled letters are dealt face down |
| LetterMemory.Game.StartGame | components/games/LetterMemory.tsx:160 | Start sets up level 1 with a zero total |
| LetterMemory.Game.CardClick | components/games/LetterMemory.tsx:90-98 | a click on a face-up card or while two are turned does nothing; otherwise the card turns up and joins the turned cards, and the pair effect then matches a second card with the same letter or counts a move |
| LetterMemory.Game.PairEffect | components/games/LetterMemory.tsx:100-120 | with two cards turned a move is counted; equal letters mark every card of that letter matched and clear the turned cards, a fully matched row then scoring the level; unequal letters are left for the turn-down |
| LetterMemory.Game.Unflip | components/games/LetterMemory.tsx:112-117 | the mismatch callback turns down the unmatched cards |
| LetterMemory.Game.NextLevel | components/games/LetterMemory.tsx:131-141 | after the last level the total is reported; otherwise the next level is set up |
| LetterMemory.Game.PlayAgain | components/games/LetterMemory.tsx:143-147 | Play Again restarts at level 1 with a zero total and the word pool kept: level 1's first fitting word is dealt as the shuffled doubled letters, face down, or an error is set when the pool has none |
| WordScrambler.Scramble | components/games/WordScrambler.tsx:20-31 | a scramble is a shuffle of the word that differs from it; there is none exactly when no attempt differs |
| WordScrambler.UniformNeverScrambles | components/games/WordScrambler.tsx:27-28 | a word of one repeated letter shuffles only to itself |
| WordScrambler.UniformRetriesForever | components/games/WordScrambler.tsx:27-28 | for a word of one repeated letter no list of attempts ever scrambles, so the retry never ends |
| WordScrambler.ScrambleOrKeep | components/games/WordScrambler.tsx:20-31 | the corrected scramble: a shuffle of the word that equals it exactly when the word is one repeated letter; there is none exactly when the word is neither one repeated letter nor scrambled by any attempt |
| WordScrambler.ScrambleExists | components/games/WordScrambler.tsx:20-31 | a word with two different letters has a shuffle that differs from it |
| WordScrambler.ScrambleableIff | components/games/WordScrambler.tsx:20-31 | a word can be scrambled exactly when it is not one repeated letter |
| WordScrambler.Tiles | components/games/WordScrambler.tsx:100 | the tiles carry the scrambled letters, numbered by position |
| WordScrambler.TilesOrdered | components/games/WordScrambler.tsx:135 | fresh tiles are ordered by id with distinct ids |
| WordScrambler.FreshRows | components/games/WordScrambler.tsx:100-101 | freshly dealt tiles all lie in the scrambled row, each once |
| WordScrambler.RestoreRows | components/games/WordScrambler.tsx:133-137 | sorting both rows back together by id gives the tiles exactly as dealt |
| WordScrambler.MoveToAnswer | components/games/WordScrambler.tsx:112-115 | moving a tile to the answer keeps the tiles split between the two rows with nothing lost |
| WordScrambler.MoveToScrambled | components/games/WordScrambler.tsx:117-120 | moving a tile back keeps the tiles split between the two rows with nothing lost |
| WordScrambler.OfLevel | components/games/WordScrambler.tsx:77 | the level's words are exactly the fetched words of that level |
| WordScrambler.LevelWordsOfLevel | components/games/WordScrambler.tsx:77 | a level plays at most five of its words, and all of them when it has fewer |
| WordScrambler.NextUnlocked | components/games/WordScrambler.tsx:88-92 | the next level unlocks exactly when the highest unlocked level is finished with enough points and is not the last |
| WordScrambler.Game.constructor | components/games/WordScrambler.tsx:34-48 | the game starts on the level screen, loading, with level 1 unlocked and no points |
| WordScrambler.Game.FetchAllWords | components/games/WordScrambler.tsx:58-68 | a failed fetch is an error; otherwise the words are stored |
| WordScrambler.Game.FinishLevel | components/games/WordScrambler.tsx:86-96 | finishing a level adds its score to the total, unlocks per NextUnlocked and reports the level score |
| WordScrambler.Game.SetupWord | components/games/WordScrambler.tsx:85-110 | past the last word the level finishes with its score added and reported; otherwise the word is dealt with an empty answer and no attempts |
| WordScrambler.Game.DealWord | components/games/WordScrambler.tsx:99-110 | the current word is dealt as tiles numbered by position, spelling a rearrangement of the word that differs from it unless it is one repeated letter, with an empty answer row, no wrong attempts and no hint |
| WordScrambler.Game.SetupLevel | components/games/WordScrambler.tsx:76-83 | a level starts with its first five words, at word 0 with score 0 |
| WordScrambler.Game.SelectLevel | components/games/WordScrambler.tsx:159-165 | choosing a level plays its words from the start |
| WordScrambler.Game.RetryLevel | components/games/WordScrambler.tsx:185 | retrying replays the same level from the start |
| WordScrambler.Game.NextLevel | components/games/WordScrambler.tsx:176-186 | the next level is offered only once unlocked and plays it from the start |
| WordScrambler.Game.BackToLevels | components/games/WordScrambler.tsx:184 | Back returns to the level screen |
| WordScrambler.Game.LetterClick | components/games/WordScrambler.tsx:112-115 | a clicked tile moves from the scrambled row to the end of the answer, and no tile is lost |
| WordScrambler.Game.SlotClick | components/games/WordScrambler.tsx:117-120 | a clicked answer tile moves back to the end of the scrambled row, and no tile is lost |
| WordScrambler.Game.Check | components/games/WordScrambler.tsx:122-132 | a check with an incomplete answer does nothing; a full answer is correct exactly when it spells the word and then adds 10 points (PointsPerWord) to the level score, and a wrong one counts an attempt |
| WordScrambler.Game.AdvanceWord | components/games/WordScrambler.tsx:129 | after a correct word the index moves on; the next word is dealt, or the level finishes and reports its score |
| WordScrambler.Game.RestoreTiles | components/games/WordScrambler.tsx:133-137 | after a wrong answer all tiles return to the scrambled row in their original order |
| SentenceWeaver.Target | components/games/SentenceWeaver.tsx:70 | the target words are space-free pieces of the cleaned sentence |
| SentenceWeaver.TargetJoin | components/games/SentenceWeaver.tsx:70 | the target words join back to the cleaned sentence |
| SentenceWeaver.Elements | components/games/SentenceWeaver.tsx:79-85 | each dealt word becomes an unclicked tile numbered by its position |
| SentenceWeaver.ClickedCountBelow | components/games/SentenceWeaver.tsx:101-114 | while a tile is unclicked, fewer tiles are clicked than there are tiles |
| SentenceWeaver.MarkClicked | components/games/SentenceWeaver.tsx:107-109 | clicking marks exactly the tile with that id |
| SentenceWeaver.UnclickAll | components/games/SentenceWeaver.tsx:141 | Try Again unmarks every tile and changes nothing else |
| SentenceWeaver.CheckIsListEquality | components/games/SentenceWeaver.tsx:117 | comparing the joined sentences is the same as comparing the word lists |
| SentenceWeaver.Game.FetchQuestionsAsWritten | components/games/SentenceWeaver.tsx:48-64 | as written, a successful fetch shows the game with the old index and score, and a question is shown exactly when the old index is inside the new list; after a finished game with five new questions none is |
| SentenceWeaver.Game.constructor | components/games/SentenceWeaver.tsx:31-44 | the game starts on the instructions screen with index and score 0 |
| SentenceWeaver.Game.SetupQuestion | components/games/SentenceWeaver.tsx:66-86 | a question's words are shuffled and dealt as unclicked tiles, with no selection, attempts, hint or feedback |
| SentenceWeaver.FreshRound | components/games/SentenceWeaver.tsx:66-86 | a fresh round shows unclicked tiles holding exactly the target's words, with nothing selected |
| SentenceWeaver.Game.FetchQuestions | components/games/SentenceWeaver.tsx:48-64 | the corrected fetch: too few questions is an error that keeps the questions, view, index, score and round; otherwise play starts at question 0 with score 0 and the first question's target words dealt as their shuffle |
| SentenceWeaver.Game.WordClick | components/games/SentenceWeaver.tsx:101-114 | an unclicked tile's word is appended to the sentence and the tile marked; a clicked tile or a judged round changes nothing |
| SentenceWeaver.Game.CheckSentence | components/games/SentenceWeaver.tsx:116-137 | the sentence is correct exactly when its words are the target's; correct scores the points, wrong counts an attempt |
| SentenceWeaver.Game.Retry | components/games/SentenceWeaver.tsx:139-143 | Try Again clears the sentence and unmarks the tiles, which are still the dealt words |
| SentenceWeaver.Game.Advance | components/games/SentenceWeaver.tsx:88-99 | the callback moves on with the questions and the error kept; after question five the score is reported and the summary shown, otherwise the next question's target words are dealt as their shuffle with a fresh round |
| DialogueBuilder.FinalScore | components/games/DialogueBuilder.tsx:125 | the score is 100 less 10 per retry, never below 0: 100 with no retries, 0 from ten retries on |
| DialogueBuilder.FinalScoreDecreasing | components/games/DialogueBuilder.tsx:125 | more retries never give a higher score |
| DialogueBuilder.FindLine | components/games/DialogueBuilder.tsx:103 | the dragged line is the first line of the order with that id; there is none exactly when no line has it |
| DialogueBuilder.Reorder | components/games/DialogueBuilder.tsx:101-110 | an unknown id changes nothing, and a drop never lengthens the order |
| DialogueBuilder.ReorderPlaces | components/games/DialogueBuilder.tsx:101-110 | for a known id the line sits at the drop position (clamped to the end) and the other lines keep their order |
| DialogueBuilder.ReorderPermutes | components/games/DialogueBuilder.tsx:101-110 | with distinct ids a drop keeps exactly the same lines |
| DialogueBuilder.FreshArrangement | components/games/DialogueBuilder.tsx:75-78 | a fresh dialogue's correct order is its lines in id order, and with distinct ids the shown order holds the same lines |
| DialogueBuilder.ReorderArranged | components/games/DialogueBuilder.tsx:101-110 | a drop keeps the shown order a rearrangement of the correct order's lines when the ids are distinct |
| DialogueBuilder.PositionFeedback | components/games/DialogueBuilder.tsx:114-121 | each position is marked correct exactly when its id matches the correct order's |
| DialogueBuilder.CountMatchesAll | components/games/DialogueBuilder.tsx:114-124 | the count of matching positions equals the length exactly when every position matches |
| DialogueBuilder.CompleteIff | components/games/DialogueBuilder.tsx:124 | the dialogue is complete exactly when every position's id matches |
| DialogueBuilder.CompletedIsSorted | components/games/DialogueBuilder.tsx:76-78 | a complete arrangement is the lines in id order itself |
| DialogueBuilder.MarkPositions | components/games/DialogueBuilder.tsx:114-121 | the checking loop counts the matching positions and marks each one correct or incorrect |
| DialogueBuilder.Game.constructor | components/games/DialogueBuilder.tsx:56-64 | the game starts loading with no dialogue, no retries and score 0 |
| DialogueBuilder.Game.FetchDialogue | components/games/DialogueBuilder.tsx:66-85 | a scenario is drawn; a failed fetch is an error that keeps the previous dialogue, orders and feedback; otherwise the correct order is the lines sorted by id and the shown order a shuffle of it, with no feedback, retries or score |
| DialogueBuilder.Game.ShowDialogue | components/games/DialogueBuilder.tsx:75-79 | a fetched dialogue is shown: the correct order is its lines sorted by id, the shown order a shuffle of its lines, every position unmarked |
| DialogueBuilder.Game.Drop | components/games/DialogueBuilder.tsx:101-110 | dropping a line reorders the shown lines as Reorder does and keeps the same lines |
| DialogueBuilder.Game.CheckOrder | components/games/DialogueBuilder.tsx:112-129 | a check counts a retry and marks each position; when all match the dialogue completes and reports the score for the earlier retries |
| WordClassSorter.Put | components/games/WordClassSorter.tsx:71-80 | replacing one bucket's list leaves the other buckets alone |
| WordClassSorter.ContentsPut | components/games/WordClassSorter.tsx:71-80 | replacing a bucket swaps that bucket's words in the total contents |
| WordClassSorter.ResetPlacements | components/games/WordClassSorter.tsx:29-31 | a round starts with every word unsorted and the four boxes empty |
| WordClassSorter.RemoveWord | components/games/WordClassSorter.tsx:76 | filtering by word keeps exactly the entries with another word |
| WordClassSorter.RemoveWordExact | components/games/WordClassSorter.tsx:76 | with unique words, filtering a word removes exactly its one entry |
| WordClassSorter.MoveWord | components/games/WordClassSorter.tsx:71-80 | a drop on the same bucket does nothing; otherwise the word leaves its source and is appended to the target, other buckets unchanged |
| WordClassSorter.MoveShrinks | components/games/WordClassSorter.tsx:71-80 | a drop never adds words to the round |
| WordClassSorter.MoveContents | components/games/WordClassSorter.tsx:71-80 | a move takes the filtered entries out of the source and adds the word to the target, in the round's words as a whole |
| WordClassSorter.MovePreserves | components/games/WordClassSorter.tsx:71-80 | with unique words in the source bucket a drop keeps exactly the same words |
| WordClassSorter.CountCorrectAll | components/games/WordClassSorter.tsx:89-95 | a box's points equal its size exactly when every word in it belongs there |
| WordClassSorter.RoundScoreBound | components/games/WordClassSorter.tsx:86-96 | the round's points are at most the sorted words, and equal them exactly when every box is right |
| WordClassSorter.BoxesSizeContents | components/games/WordClassSorter.tsx:86-96 | the boxes hold no more words than the round |
| WordClassSorter.ScoreBox | components/games/WordClassSorter.tsx:89-95 | the inner loop counts a box's words of its category and finds whether all are |
| WordClassSorter.ScoreRound | components/games/WordClassSorter.tsx:86-96 | the scoring loop computes the round's points and whether every box is right |
| WordClassSorter.WordsUpToBound | components/games/WordClassSorter.tsx:121 | the words of n rounds number at most four per round |
| WordClassSorter.ReportedBound | components/games/WordClassSorter.tsx:121 | a score bounded by the sorted words of five four-word rounds is at most the summary's total of 20 |
| WordClassSorter.Game.constructor | components/games/WordClassSorter.tsx:18-31 | the game starts loading with empty buckets |
| WordClassSorter.Game.FetchQuestions | components/games/WordClassSorter.tsx:33-52 | a failed or short fetch is an error; otherwise play starts at round 0 with score 0 and the first round's words unsorted |
| WordClassSorter.Game.Drop | components/games/WordClassSorter.tsx:66-81 | a drop moves the word as MoveWord does and never adds words to the round |
| WordClassSorter.Game.Submit | components/games/WordClassSorter.tsx:83-99 | a submit while a word is unsorted or after answering does nothing; otherwise it adds the round's points and marks the round answered |
| WordClassSorter.Game.Advance | components/games/WordClassSorter.tsx:101-110 | the callback moves to the next round with its words unsorted, or after round five reports the score, which is at most the number of words of the five rounds |
| EmojiGuessChallenge.Game.constructor | components/games/EmojiGuessChallenge.tsx:44-58 | the game starts on the category screen with score 0 |
| EmojiGuessChallenge.Game.SelectCategory | components/games/EmojiGuessChallenge.tsx:60-85 | a failed fetch shows the error with no questions; otherwise play starts at question 0 with score 0 |
| EmojiGuessChallenge.Game.SetAnswer | components/games/EmojiGuessChallenge.tsx:219 | typing changes only the answer text |
| EmojiGuessChallenge.Game.SubmitStart | components/games/EmojiGuessChallenge.tsx:87-91 | an empty answer or a check in progress does nothing; otherwise validation starts |
| EmojiGuessChallenge.Game.SubmitFinish | components/games/EmojiGuessChallenge.tsx:93-112 | a verdict shows its feedback and scores one point when correct; a failed validation shows the service error without scoring |
| EmojiGuessChallenge.Game.Next | components/games/EmojiGuessChallenge.tsx:115-131 | Next moves to the next question, or after the last one reports the score, which is the number of correct answers |
| EmojiGuessChallenge.Game.NextAsWritten | components/games/EmojiGuessChallenge.tsx:115-131 | as written, the report after the last question is the score plus one; when the score counts the correct answers this is one more than the number of questions |
| EmojiGuessChallenge.Game.PlayAgain | components/games/EmojiGuessChallenge.tsx:133-139 | Play Again returns to the categories |
| EmojiGuessChallenge.Game.BackToCategories | components/games/EmojiGuessChallenge.tsx:141-144 | Back returns to the categories |

## Left out

- The question generator: every call becomes an input parameter. The prompts,
  the JSON schemas and the network are not part of this model. The generator
  lives in `services/geminiService.ts`, which is not part of this model.
- Rendering, styling and animation. This includes the wheel's CSS rotation,
  the random on-screen positions of the Sentence Weaver tiles and the
  explosion animation. Only the state these depend on is modelled.
- Timers: each `setTimeout` or `setInterval` callback is a separate method.
  Which wait happens first is the caller's choice, so races between timers
  and clicks are modelled only where a method's precondition allows them.
- WordScrambler.Game.constructor: the saved progress in `localStorage` is not
  read; the model always starts from the default progress (level 1 unlocked,
  total 0). Saving the progress is not modelled either.
- WordScrambler.Game.LetterClick: the wrong-answer callback restores tiles
  from a stale copy of the answer row. Tile clicks are therefore required to
  happen outside the wrong-answer feedback window.
- WordScrambler.Game.DealWord: requires that the word is one repeated letter
  or can be scrambled within the given attempts. A word of one repeated
  letter is dealt as it is (ScrambleOrKeep, see Findings); the source's
  recursion never finds a scramble for it and ends in a stack-overflow
  `RangeError`.
- WordScrambler.Game.SetupLevel: a level with no words leaves the source on
  its loading spinner for good. The model leaves the game without a word and
  only promises Valid() when the level has words.
- GrammarMaze.Game.AnswerQuestion: a second answer given inside the 1.5 s
  window before the next question appears is not modelled.
- LetterMemory.Game.CardClick: matched cards that were not turned up in this
  turn (a letter repeated in the word) stay clickable, as in the source.
- SentenceWeaver.Game.Advance: when the generator returned more than five
  questions, the source's set-up effect also deals question six behind the
  summary screen. The model leaves the round as it was; the summary shows
  neither.
- DialogueBuilder.Game.Drop: the drop position comes from the rendered list,
  so it is required to be a position of the shown order. A drag id that does
  not parse as a number behaves like an unknown id.
- EmojiGuessChallenge.Game.SelectCategory: the fetch is one step, so there is
  no separate loading flag. Going back during a validation lets the late
  verdict land on the next game. This is modelled: SubmitFinish does not
  require the game screen.
- EmojiGuessChallenge.Game.SubmitFinish: the feedback strings are the
  verdict's own text. Only the service-failure text is fixed.
- WordClassSorter.Game.Drop: the drag payload is the JSON of the word and
  its source bucket. It is modelled as the parsed values.
- GrammarFill.Game.Fetch: a failed request and a list of fewer than five
  questions are the same outcome. The same holds for GrammarQuizWheel,
  PrepositionDrop, GrammarSpotter and VerbBombDefuse.
- Text.LowerChar: case-maps the ASCII letters only. JavaScript's
  `toLowerCase` also maps the other Unicode letters (for example 'Ä' to 'ä').
- Text.UpperChar: case-maps the ASCII letters only. JavaScript's
  `toUpperCase` also maps the other Unicode letters, and some to several
  characters ('ß' becomes "SS").
- Text.Lower: the length-keeping, character-by-character promise holds for
  the ASCII case mapping only. The full Unicode mapping is not modelled.
- Text.Upper: the length-keeping promise holds for the ASCII case mapping
  only. JavaScript's upper-casing can lengthen a string ('ß' becomes "SS").
- ScoreSummary.Percentage: rounds the exact rational 100·score/total. The
  source rounds a double, which can fall just below a half: 57 of 200 gives
  28 in JavaScript and 29 here. The totals the games pass (3, 5, 20, 50 and
  60) never put 100·score/total at a half, so the two agree there.
- The app shell, the leaderboard and the game cards are not part of this
  model.

## Findings

| source | as written | input that shows it | evidently intended | confidence | as-written member | corrected member |
|---|---|---|---|---|---|---|
| components/games/EmojiGuessChallenge.tsx:125 | the completion report sends `score + 1`, but the score already counts the last answer | five questions, all answered correctly: the report is 6 | report `score` | not executed; high | EmojiGuessChallenge.Game.NextAsWritten | EmojiGuessChallenge.Game.Next |
| components/games/SentenceWeaver.tsx:48-64 | Play Again calls the fetch, which keeps the question index at five and the old score | finish a game, press Play Again, receive five questions: the index stays 5, no question exists at it and the loading spinner stays on screen | reset the index and score when a new batch arrives | not executed; medium | SentenceWeaver.Game.FetchQuestionsAsWritten | SentenceWeaver.Game.FetchQuestions |
| components/games/GrammarQuizWheel.tsx:198-200 | after the answer callback moves the index on, the game view renders before the completion effect switches to the summary, and it reads `questions[currentQuestionIndex].sentence` | five questions fetched, the fifth answered: the render reads question 5, which does not exist, and throws, so the score is never reported | show the summary once the index reaches five, never reading past the last question | not executed; medium | GrammarQuizWheel.Game.AdvanceAsWritten | GrammarQuizWheel.Game.Advance |
| components/games/WordScrambler.tsx:27-28 | `shuffle` starts over whenever the shuffle equals the word, but no shuffle changes a word of one repeated letter | a one-letter word such as "I": every retry gives "I" back and the recursion ends in a stack overflow | deal such a word as it is | not executed; medium | WordScrambler.UniformRetriesForever | WordScrambler.ScrambleOrKeep |
| components/games/VerbBombDefuse.tsx:93-101 | the countdown guard does not check the error flag | the first fetch fails: the timer keeps running on the error screen and at zero reads a question that does not exist | run the countdown only while a question is shown | not executed; medium | VerbBombDefuse.FailedStartKeepsCountdown | VerbBombDefuse.Game.Tick |
| components/games/GrammarFill.tsx:72 | `if (selectedAnswer) return` treats a selected empty string as no selection (the same guard is at GrammarQuizWheel.tsx:110, VerbBombDefuse.tsx:67 and GrammarMaze.tsx:75) | a question whose answer is the option "": two clicks on it score two points | ignore every click after the first in a round | not executed; low | GameTypes.EmptyOptionScoresTwice | GrammarFill.Game.AnswerClick |
