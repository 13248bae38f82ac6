/**
 * Grammar Maze: a walk on a 5x5 grid from S at the top-left corner to E at
 * the bottom-right.  Walls block, and each of the three doors is locked until
 * a question is answered correctly; questions are taken from a fetched pool
 * by a running index modulo the pool size.
 */
module GrammarMaze {
  import opened GameTypes

  /** MAZE_SIZE. */
  const MazeSize: int := 5
  /** The smallest pool the maze accepts. */
  const MinPool: int := 10

  const Wall: char := 'W'
  const PathCell: char := 'P'
  const DoorCell: char := 'D'
  const StartCell: char := 'S'
  const EndCell: char := 'E'

  /** A layout (rows of cells, indexed by y then x) and its doors, all locked (true). */
  datatype MazeConfig = MazeConfig(layout: seq<string>, doors: map<string, bool>)

  const IncorrectMessage: string := "Incorrect! Let's try another question."

  /** The key of the door at row y, column x: the template `${y}_${x}`. */
  function DoorKey(y: int, x: int): (key: string)
    requires 0 <= y < 10 && 0 <= x < 10
    ensures |key| == 3 && key[1] == '_'
  {
    [('0' as int + y) as char, '_', ('0' as int + x) as char]
  }

  /** Different cells have different door keys. */
  lemma DoorKeyInjective(y1: int, x1: int, y2: int, x2: int)
    requires 0 <= y1 < 10 && 0 <= x1 < 10 && 0 <= y2 < 10 && 0 <= x2 < 10
    ensures DoorKey(y1, x1) == DoorKey(y2, x2) <==> y1 == y2 && x1 == x2
  {
    if DoorKey(y1, x1) == DoorKey(y2, x2) {
      assert DoorKey(y1, x1)[0] == DoorKey(y2, x2)[0];
      assert DoorKey(y1, x1)[2] == DoorKey(y2, x2)[2];
    }
  }

  const Configs: seq<MazeConfig> := [
    MazeConfig(["SPPDP",
                "WWWWP",
                "PDPPP",
                "PWWWW",
                "PPPDE"], map["0_3" := true, "2_1" := true, "4_3" := true]),
    MazeConfig(["SWPPP",
                "PWPWP",
                "PDPDP",
                "PWWWW",
                "PPPDE"], map["2_1" := true, "2_3" := true, "4_3" := true]),
    MazeConfig(["SPPPP",
                "WWDWP",
                "PPPWP",
                "PWDWD",
                "PPPPE"], map["1_2" := true, "3_2" := true, "3_4" := true]),
    MazeConfig(["SDPWW",
                "WWPWW",
                "PPPDP",
                "PWWWP",
                "PDPPE"], map["0_1" := true, "2_3" := true, "4_1" := true]),
    MazeConfig(["SPWPP",
                "WPWPW",
                "WPDPD",
                "PPWWW",
                "DPPPE"], map["2_2" := true, "2_4" := true, "4_0" := true])
  ]

  predicate InGrid(y: int, x: int)
  {
    0 <= y < MazeSize && 0 <= x < MazeSize
  }

  /** The layout is a 5x5 grid. */
  predicate Dims(c: MazeConfig)
  {
    |c.layout| == MazeSize && forall y :: 0 <= y < MazeSize ==> |c.layout[y]| == MazeSize
  }

  /**
   * A well-formed maze: 5x5, S at (0,0), E at (4,4) and nowhere else, the
   * door map's keys are exactly the keys of the D cells, all locked, and
   * there are three of them.
   */
  ghost predicate WellFormed(c: MazeConfig)
  {
    && Dims(c)
    && c.layout[0][0] == StartCell
    && (forall y, x :: InGrid(y, x) ==> (c.layout[y][x] == EndCell <==> y == 4 && x == 4))
    && (forall y, x :: InGrid(y, x) ==> (c.layout[y][x] == DoorCell <==> DoorKey(y, x) in c.doors))
    && (forall key :: key in c.doors ==> c.doors[key] && exists y, x :: InGrid(y, x) && key == DoorKey(y, x))
    && |c.doors| == 3
  }

  /** The cell facts of one configuration, one cell at a time. */
  lemma ConfigCell(k: nat, y: int, x: int)
    requires k < |Configs| && InGrid(y, x)
    ensures |Configs[k].layout| == MazeSize && |Configs[k].layout[y]| == MazeSize
    ensures Configs[k].layout[y][x] == EndCell <==> y == 4 && x == 4
    ensures Configs[k].layout[y][x] == DoorCell <==> DoorKey(y, x) in Configs[k].doors
    ensures Configs[k].layout[y][x] == StartCell <==> y == 0 && x == 0
  {
    assert y == 0 || y == 1 || y == 2 || y == 3 || y == 4;
    assert k == 0 || k == 1 || k == 2 || k == 3 || k == 4;
  }

  /** A door map of three distinct cell keys, all locked. */
  lemma ThreeDoors(d: map<string, bool>, y1: int, x1: int, y2: int, x2: int, y3: int, x3: int)
    requires InGrid(y1, x1) && InGrid(y2, x2) && InGrid(y3, x3)
    requires y1 != y2 || x1 != x2
    requires y1 != y3 || x1 != x3
    requires y2 != y3 || x2 != x3
    requires d == map[DoorKey(y1, x1) := true, DoorKey(y2, x2) := true, DoorKey(y3, x3) := true]
    ensures |d| == 3
    ensures forall key :: key in d ==> d[key] && exists y, x :: InGrid(y, x) && key == DoorKey(y, x)
  {
    DoorKeyInjective(y1, x1, y2, x2);
    DoorKeyInjective(y1, x1, y3, x3);
    DoorKeyInjective(y2, x2, y3, x3);
    assert d.Keys == {DoorKey(y1, x1), DoorKey(y2, x2), DoorKey(y3, x3)};
  }

  lemma ConfigDims(k: nat)
    requires k < |Configs|
    ensures Dims(Configs[k])
  {
    forall y | 0 <= y < MazeSize ensures |Configs[k].layout[y]| == MazeSize {
      ConfigCell(k, y, 0);
    }
  }

  /** Each configuration's doors: three keys, all locked, each the key of a grid cell. */
  lemma ConfigDoors(k: nat)
    requires k < |Configs|
    ensures |Configs[k].doors| == 3
    ensures forall key :: key in Configs[k].doors ==>
              Configs[k].doors[key] && exists y, x :: InGrid(y, x) && key == DoorKey(y, x)
  {
    if k == 0 {
      ThreeDoors(Configs[k].doors, 0, 3, 2, 1, 4, 3);
    } else if k == 1 {
      ThreeDoors(Configs[k].doors, 2, 1, 2, 3, 4, 3);
    } else if k == 2 {
      ThreeDoors(Configs[k].doors, 1, 2, 3, 2, 3, 4);
    } else if k == 3 {
      ThreeDoors(Configs[k].doors, 0, 1, 2, 3, 4, 1);
    } else {
      ThreeDoors(Configs[k].doors, 2, 2, 2, 4, 4, 0);
    }
  }

  /** Every one of the five configurations is well formed. */
  lemma ConfigsWellFormed(k: nat)
    requires k < |Configs|
    ensures WellFormed(Configs[k])
  {
    var c := Configs[k];
    forall y, x | InGrid(y, x)
      ensures |c.layout[y]| == MazeSize
      ensures c.layout[y][x] == EndCell <==> y == 4 && x == 4
      ensures c.layout[y][x] == DoorCell <==> DoorKey(y, x) in c.doors
    {
      ConfigCell(k, y, x);
    }
    ConfigCell(k, 0, 0);
    ConfigDoors(k);
  }

  /** A target the walk cannot enter: off the grid or a wall. */
  predicate Blocked(c: MazeConfig, y: int, x: int)
    requires Dims(c)
  {
    !InGrid(y, x) || c.layout[y][x] == Wall
  }

  /** (y, x) is a door cell whose door is locked. */
  predicate LockedDoor(c: MazeConfig, doors: map<string, bool>, y: int, x: int)
    requires Dims(c)
  {
    InGrid(y, x) && c.layout[y][x] == DoorCell && DoorKey(y, x) in doors && doors[DoorKey(y, x)]
  }

  /** The doors already opened: the keys mapped to false (the progress count of the board). */
  function UnlockedDoors(doors: map<string, bool>): (u: set<string>)
    ensures u <= doors.Keys
    ensures forall key :: key in u <==> key in doors && !doors[key]
  {
    set key | key in doors && !doors[key]
  }

  lemma {:induction false} SubsetCardinality<T>(a: set<T>, b: set<T>)
    requires a <= b
    ensures |a| <= |b|
    decreases |a|
  {
    if a != {} {
      var e :| e in a;
      SubsetCardinality(a - {e}, b - {e});
    }
  }

  /** No more doors are open than there are doors. */
  lemma UnlockedBound(doors: map<string, bool>)
    ensures |UnlockedDoors(doors)| <= |doors|
  {
    SubsetCardinality(UnlockedDoors(doors), doors.Keys);
  }

  /** Opening a locked door adds exactly that door to the opened ones. */
  lemma UnlockOne(doors: map<string, bool>, door: string)
    requires door in doors && doors[door]
    ensures UnlockedDoors(doors[door := false]) == UnlockedDoors(doors) + {door}
    ensures |UnlockedDoors(doors[door := false])| == |UnlockedDoors(doors)| + 1
  {
    assert door !in UnlockedDoors(doors);
    assert UnlockedDoors(doors[door := false]) == UnlockedDoors(doors) + {door};
  }

  lemma DoorTotal(k: nat)
    requires k < |Configs|
    ensures |Configs[k].doors| == 3
  {
    ConfigDoors(k);
  }

  /** A configuration's doors start all locked. */
  lemma NoneUnlocked(k: nat)
    requires k < |Configs|
    ensures UnlockedDoors(Configs[k].doors) == {}
  {
    ConfigDoors(k);
  }

  /**
   * The question dialog of a door.  The first option picked is judged; a
   * deferred callback then hands the verdict to the maze and clears the
   * dialog.
   */
  class QuestionModal {
    var question: FillQuestion
    var selected: Option<string>
    var feedback: Feedback

    ghost predicate Valid()
      reads this
    {
      (selected.None? <==> feedback == NoFeedback)
      && (selected.Some? ==> feedback == Judge(selected.value, question.answer))
    }

    constructor (q: FillQuestion)
      ensures Valid() && question == q && selected.None? && feedback == NoFeedback
    {
      question := q;
      selected := None;
      feedback := NoFeedback;
    }

    /** handleSelect: ignored once an option is picked; otherwise the option is picked and judged. */
    method Select(option: string)
      requires Valid()
      modifies this`selected, this`feedback
      ensures Valid() && question == old(question)
      ensures old(selected).Some? ==> selected == old(selected) && feedback == old(feedback)
      ensures old(selected).None? ==> selected == Some(option) && feedback == Judge(option, question.answer)
    {
      if selected.Some? {
        return;
      }
      selected := Some(option);
      var correct := option == question.answer;
      feedback := if correct then Correct else Incorrect;
    }

    /** The deferred callback of a pick: the verdict goes to the maze and the dialog is cleared. */
    method Settle() returns (isCorrect: bool)
      requires Valid() && selected.Some?
      modifies this
      ensures Valid() && question == old(question)
      ensures isCorrect <==> old(selected).value == question.answer
      ensures selected.None? && feedback == NoFeedback
    {
      isCorrect := feedback == Correct;
      selected := None;
      feedback := NoFeedback;
    }
  }

  /**
   * The board part of the game state: the player stands inside the grid on
   * a cell that is neither a wall nor a locked door, the door map has the
   * maze's keys, the score is the number of opened doors, and the game is
   * over exactly on the exit.
   */
  ghost predicate BoardValid(c: MazeConfig, doors: map<string, bool>, y: int, x: int, score: nat, gameOver: bool)
  {
    && Dims(c)
    && doors.Keys == c.doors.Keys
    && InGrid(y, x)
    && c.layout[y][x] != Wall
    && !LockedDoor(c, doors, y, x)
    && score == |UnlockedDoors(doors)|
    && (gameOver <==> c.layout[y][x] == EndCell)
  }

  /**
   * The question dialog: a question is open exactly when a door is being
   * attempted, only during play, showing the pool's question at the running
   * index for a door that is still locked; the try-another message shows
   * only over an open question.
   */
  ghost predicate DialogValid(q: Option<FillQuestion>, door: Option<string>, pool: seq<FillQuestion>, index: nat,
                              doors: map<string, bool>, closed: bool, feedback: string)
  {
    && (q.Some? <==> door.Some?)
    && (q.Some? ==> !closed && |pool| > 0 && q.value == pool[index % |pool|] && door.value in doors && doors[door.value])
    && (feedback != "" ==> q.Some? && feedback == IncorrectMessage)
  }

  /** A fresh board of any configuration: the player on the start cell, no door opened. */
  lemma FreshBoard(k: nat)
    requires k < |Configs|
    ensures BoardValid(Configs[k], Configs[k].doors, 0, 0, 0, false)
  {
    ConfigDims(k);
    NoneUnlocked(k);
    ConfigCell(k, 0, 0);
  }

  /** Opening a locked door other than the player's cell keeps the board valid, one point up. */
  lemma UnlockKeepsBoard(c: MazeConfig, doors: map<string, bool>, y: int, x: int, score: nat, gameOver: bool, door: string)
    requires BoardValid(c, doors, y, x, score, gameOver) && door in doors && doors[door]
    ensures BoardValid(c, doors[door := false], y, x, score + 1, gameOver)
    ensures score + 1 <= |c.doors|
  {
    UnlockOne(doors, door);
    UnlockedBound(doors[door := false]);
    assert doors[door := false].Keys == doors.Keys;
  }

  class Game {
    var playerX: int
    var playerY: int
    var mazeConfig: MazeConfig
    var questionPool: seq<FillQuestion>
    var questionIndex: nat
    var currentQuestion: Option<FillQuestion>
    var attemptingDoor: Option<string>
    var doors: map<string, bool>
    var isLoading: bool
    var error: bool
    var score: nat
    var gameOver: bool
    var modalFeedback: string

    ghost predicate Valid()
      reads this
    {
      && BoardValid(mazeConfig, doors, playerY, playerX, score, gameOver)
      && (!isLoading && !error ==> |questionPool| >= MinPool)
      && (isLoading ==> !error)
      && DialogValid(currentQuestion, attemptingDoor, questionPool, questionIndex, doors,
                     gameOver || isLoading || error, modalFeedback)
    }

    function CellAt(y: int, x: int): char
      reads this
      requires Dims(mazeConfig) && InGrid(y, x)
    {
      mazeConfig.layout[y][x]
    }

    predicate Locked(key: string)
      reads this
    {
      key in doors && doors[key]
    }

    /** The number of doors of the maze in play, the total of its summary. */
    function DoorCount(): nat
      reads this
    {
      |mazeConfig.doors|
    }

    constructor ()
      ensures Valid() && isLoading && currentQuestion.None?
    {
      playerX, playerY := 0, 0;
      mazeConfig := Configs[0];
      questionPool := [];
      questionIndex := 0;
      currentQuestion := None;
      attemptingDoor := None;
      doors := Configs[0].doors;
      isLoading := true;
      error := false;
      score := 0;
      gameOver := false;
      modalFeedback := "";
      new;
      FreshBoard(0);
    }

    /**
     * handleReset (on mount and Play Again) with configDraw =
     * floor(random * 5): the drawn maze with all its doors locked, the player
     * at (0,0), score 0, no question open, question index 0, and the pool
     * fetch under way.
     */
    method Reset(configDraw: nat)
      requires Valid() && (isLoading || gameOver) && configDraw < |Configs|
      modifies this`playerX, this`playerY, this`mazeConfig, this`questionIndex, this`currentQuestion
      modifies this`attemptingDoor, this`doors, this`isLoading, this`error, this`score, this`gameOver
      ensures Valid()
      ensures mazeConfig == Configs[configDraw] && doors == mazeConfig.doors
      ensures UnlockedDoors(doors) == {} && DoorCount() == 3
      ensures playerX == 0 && playerY == 0 && score == 0 && !gameOver
      ensures currentQuestion.None? && attemptingDoor.None? && questionIndex == 0
      ensures isLoading && !error && questionPool == old(questionPool)
    {
      var c := Configs[configDraw];
      FreshBoard(configDraw);
      NoneUnlocked(configDraw);
      DoorTotal(configDraw);
      assert BoardValid(c, c.doors, 0, 0, 0, false) && UnlockedDoors(c.doors) == {} && |c.doors| == 3;
      mazeConfig := c;
      doors := c.doors;
      playerX, playerY := 0, 0;
      score := 0;
      gameOver := false;
      currentQuestion := None;
      attemptingDoor := None;
      questionIndex := 0;
      isLoading := true;
      error := false;
    }

    /** The Retry button of the error screen: the pool fetch starts again. */
    method Retry()
      requires Valid() && error && !isLoading
      modifies this`isLoading, this`error
      ensures Valid() && isLoading && !error
    {
      isLoading := true;
      error := false;
    }

    /**
     * The end of fetchQuestions (`fetched` is the generator's answer): fewer
     * than ten questions is an error that keeps the old pool; otherwise the
     * pool is replaced.
     */
    method FetchDone(fetched: seq<FillQuestion>)
      requires Valid() && isLoading
      modifies this`questionPool, this`isLoading, this`error
      ensures Valid()
      ensures !isLoading && (error <==> |fetched| < MinPool)
      ensures questionPool == if error then old(questionPool) else fetched
    {
      isLoading := false;
      if |fetched| < MinPool {
        error := true;
      } else {
        questionPool := fetched;
      }
    }

    /**
     * handleMove by (dx, dy), with the completion effect.  Nothing happens
     * when the game is over, a question is open, the target is off the grid
     * or a wall.  A locked door does not let the player through: it opens
     * the question pool[questionIndex mod |pool|] for that door.  Any other
     * target (path, start, opened door, exit) becomes the position, and
     * reaching the exit ends the game and reports the score.
     */
    method Move(dx: int, dy: int) returns (reported: Option<int>)
      requires Valid() && !isLoading && !error
      modifies this`playerX, this`playerY, this`currentQuestion, this`attemptingDoor, this`gameOver
      ensures Valid()
      ensures mazeConfig == old(mazeConfig) && doors == old(doors)
      ensures score == old(score) && questionIndex == old(questionIndex)
      ensures old(gameOver) || old(currentQuestion).Some? || Blocked(mazeConfig, old(playerY) + dy, old(playerX) + dx) ==>
                && playerX == old(playerX) && playerY == old(playerY) && gameOver == old(gameOver)
                && currentQuestion == old(currentQuestion) && attemptingDoor == old(attemptingDoor)
                && reported.None?
      ensures !old(gameOver) && old(currentQuestion).None?
              && LockedDoor(mazeConfig, doors, old(playerY) + dy, old(playerX) + dx) ==>
                && playerX == old(playerX) && playerY == old(playerY) && !gameOver && reported.None?
                && currentQuestion == Some(questionPool[questionIndex % |questionPool|])
                && attemptingDoor == Some(DoorKey(old(playerY) + dy, old(playerX) + dx))
      ensures !old(gameOver) && old(currentQuestion).None? && !Blocked(mazeConfig, old(playerY) + dy, old(playerX) + dx)
              && !LockedDoor(mazeConfig, doors, old(playerY) + dy, old(playerX) + dx) ==>
                && playerX == old(playerX) + dx && playerY == old(playerY) + dy && currentQuestion.None?
                && (gameOver <==> mazeConfig.layout[playerY][playerX] == EndCell)
                && (reported.Some? <==> gameOver)
                && (reported.Some? ==> reported.value == score && score <= DoorCount())
    {
      reported := None;
      var newX, newY := playerX + dx, playerY + dy;
      if gameOver || currentQuestion.Some? || Blocked(mazeConfig, newY, newX) {
        return;
      }
      if LockedDoor(mazeConfig, doors, newY, newX) {
        OpenQuestion(DoorKey(newY, newX));
        return;
      }
      reported := StepTo(newY, newX);
    }

    /** The player stays put and the door's question, pool[questionIndex mod |pool|], is opened. */
    method OpenQuestion(doorId: string)
      requires Valid() && !isLoading && !error && !gameOver && currentQuestion.None? && Locked(doorId)
      modifies this`currentQuestion, this`attemptingDoor
      ensures Valid()
      ensures currentQuestion == Some(questionPool[questionIndex % |questionPool|])
      ensures attemptingDoor == Some(doorId)
    {
      currentQuestion := Some(questionPool[questionIndex % |questionPool|]);
      attemptingDoor := Some(doorId);
    }

    /** The player moves to (y, x); reaching the exit ends the game and reports the score. */
    method StepTo(y: int, x: int) returns (reported: Option<int>)
      requires Valid() && !gameOver && currentQuestion.None?
      requires !Blocked(mazeConfig, y, x) && !LockedDoor(mazeConfig, doors, y, x)
      modifies this`playerX, this`playerY, this`gameOver
      ensures Valid()
      ensures playerX == x && playerY == y
      ensures gameOver <==> CellAt(y, x) == EndCell
      ensures reported.Some? <==> gameOver
      ensures reported.Some? ==> reported.value == score && score <= DoorCount()
    {
      playerX, playerY := x, y;
      reported := None;
      if mazeConfig.layout[y][x] == EndCell {
        gameOver := true;
        UnlockedBound(doors);
        reported := Some(score);
      }
    }

    /**
     * handleQuestionAnswer, the dialog's verdict.  A correct answer scores
     * one point, opens the attempted door, closes the dialog and uses up the
     * question.  A wrong one leaves the door locked and shows the
     * try-another message until ShowNextQuestion.
     */
    method AnswerQuestion(isCorrect: bool)
      requires Valid() && currentQuestion.Some? && modalFeedback == ""
      modifies this`score, this`doors, this`currentQuestion, this`attemptingDoor, this`questionIndex,
               this`modalFeedback
      ensures Valid()
      ensures playerX == old(playerX) && playerY == old(playerY) && gameOver == old(gameOver)
      ensures isCorrect ==>
                && score == old(score) + 1 && score <= DoorCount()
                && doors == old(doors)[old(attemptingDoor).value := false]
                && currentQuestion.None? && attemptingDoor.None?
                && questionIndex == old(questionIndex) + 1 && modalFeedback == ""
      ensures !isCorrect ==>
                && score == old(score) && doors == old(doors) && questionIndex == old(questionIndex)
                && currentQuestion == old(currentQuestion) && attemptingDoor == old(attemptingDoor)
                && modalFeedback == IncorrectMessage
    {
      if isCorrect {
        var door := attemptingDoor.value;
        UnlockKeepsBoard(mazeConfig, doors, playerY, playerX, score, gameOver, door);
        score := score + 1;
        doors := doors[door := false];
        currentQuestion := None;
        attemptingDoor := None;
        questionIndex := questionIndex + 1;
      } else {
        modalFeedback := IncorrectMessage;
      }
    }

    /**
     * The deferred callback of a wrong answer: the next question index is
     * taken and its pool question (modulo the pool size) shown for the same
     * door.
     */
    method ShowNextQuestion()
      requires Valid() && modalFeedback != ""
      modifies this`questionIndex, this`currentQuestion, this`modalFeedback
      ensures Valid()
      ensures questionIndex == old(questionIndex) + 1
      ensures currentQuestion == Some(questionPool[questionIndex % |questionPool|])
      ensures modalFeedback == "" && attemptingDoor == old(attemptingDoor) && doors == old(doors)
    {
      var nextIndex := questionIndex + 1;
      questionIndex := nextIndex;
      currentQuestion := Some(questionPool[nextIndex % |questionPool|]);
      modalFeedback := "";
    }
  }
}
