/**
 * Dialogue Builder: the lines of a generated conversation are shown in a
 * shuffled order; the player drags lines to new positions and checks the
 * order.  Each position is marked correct when it holds the line with the id
 * of the id-sorted order there; a fully correct order completes the puzzle
 * with 100 points less 10 for each earlier check.
 */
module DialogueBuilder {
  import opened GameTypes
  import Shuffle
  import Sorting

  /** The scenarios a conversation is requested for. */
  const Scenarios: seq<string> := [
    "Job Interview",
    "Ordering Food",
    "Doctor Appointment",
    "Making a Complaint",
    "Hotel Booking",
    "Asking for Directions",
    "Shopping for Clothes",
    "Returning a faulty item",
    "Planning a weekend trip",
    "Discussing a movie"
  ]

  function LineId(l: DialogueLine): int
  {
    l.id
  }

  /** The score of a puzzle completed after `retries` earlier checks: max(0, 100 - 10 * retries). */
  function FinalScore(retries: nat): (score: nat)
    ensures score <= 100
    ensures retries == 0 ==> score == 100
    ensures retries >= 10 <==> score == 0
    ensures retries < 10 ==> score == 100 - 10 * retries
  {
    if 100 - 10 * retries > 0 then 100 - 10 * retries else 0
  }

  /** Every further check costs ten points until none are left. */
  lemma FinalScoreDecreasing(r1: nat, r2: nat)
    requires r1 <= r2
    ensures FinalScore(r2) <= FinalScore(r1)
    ensures r2 < 10 ==> FinalScore(r1) - FinalScore(r2) == 10 * (r2 - r1)
  {
  }

  /**
   * The drop: when a line has the dragged id, every line with that id is
   * removed and the (first) dragged line inserted at the drop position, or
   * at the end if the position is past it.  An unknown id changes nothing.
   */
  function Reorder(order: seq<DialogueLine>, draggedId: int, dropIndex: nat): (r: seq<DialogueLine>)
    ensures FindLine(order, draggedId).None? ==> r == order
    ensures |r| <= |order|
  {
    var found := FindLine(order, draggedId);
    if found.None? then order
    else
      var items := Sorting.RemoveKey(order, LineId, draggedId);
      var k := if dropIndex <= |items| then dropIndex else |items|;
      items[..k] + [found.value] + items[k..]
  }

  /**
   * A drop of a known id puts the dragged line at the drop position (the
   * last position when the drop is past the end) and leaves the other lines
   * in their order.
   */
  lemma ReorderPlaces(order: seq<DialogueLine>, draggedId: int, dropIndex: nat)
    requires FindLine(order, draggedId).Some?
    ensures var r := Reorder(order, draggedId, dropIndex);
            && 0 < |r| <= |order|
            && var k := if dropIndex < |r| then dropIndex else |r| - 1;
               && r[k] == FindLine(order, draggedId).value
               && r[..k] + r[k + 1..] == Sorting.RemoveKey(order, LineId, draggedId)
  {
    var items := Sorting.RemoveKey(order, LineId, draggedId);
    var k := if dropIndex <= |items| then dropIndex else |items|;
    var r := items[..k] + [FindLine(order, draggedId).value] + items[k..];
    assert r[..k] + r[k + 1..] == items;
  }

  /** `find(item => item.id === id)`: the first line with the id. */
  function FindLine(order: seq<DialogueLine>, id: int): (r: Option<DialogueLine>)
    ensures r.Some? ==> r.value in order && r.value.id == id
    ensures r.None? <==> forall l :: l in order ==> l.id != id
    ensures r.Some? ==> exists i :: 0 <= i < |order| && order[i] == r.value
                                    && forall j :: 0 <= j < i ==> order[j].id != id
  {
    if order == [] then None
    else if order[0].id == id then Some(order[0])
    else FindLine(order[1..], id)
  }

  /** Putting v back at position k adds exactly v to the lines. */
  lemma InsertAtPermutes(items: seq<DialogueLine>, v: DialogueLine, k: nat)
    requires k <= |items|
    ensures multiset(items[..k] + [v] + items[k..]) == multiset(items) + multiset{v}
  {
    assert items == items[..k] + items[k..];
  }

  /** With distinct ids a drop keeps the same lines and the same ids distinct. */
  lemma ReorderPermutes(order: seq<DialogueLine>, draggedId: int, dropIndex: nat)
    requires Sorting.DistinctKeys(order, LineId)
    ensures multiset(Reorder(order, draggedId, dropIndex)) == multiset(order)
  {
    var found := FindLine(order, draggedId);
    if found.Some? {
      var v := found.value;
      var items := Sorting.RemoveKey(order, LineId, draggedId);
      Sorting.RemoveKeyRemovesOne(order, LineId, v);
      var k := if dropIndex <= |items| then dropIndex else |items|;
      assert Reorder(order, draggedId, dropIndex) == items[..k] + [v] + items[k..];
      InsertAtPermutes(items, v, k);
    }
  }

  /** The per-position marks of a check: correct where the ids agree with the sorted order. */
  function PositionFeedback(user: seq<DialogueLine>, correct: seq<DialogueLine>): (fb: seq<Feedback>)
    requires |user| <= |correct|
    ensures |fb| == |user|
    ensures forall i :: 0 <= i < |user| ==> (fb[i] == Correct <==> user[i].id == correct[i].id) && fb[i] != NoFeedback
  {
    seq(|user|, i requires 0 <= i < |user| => if user[i].id == correct[i].id then Correct else Incorrect)
  }

  /** `Array(n).fill('none')`: n unmarked positions. */
  function Unmarked(n: nat): (fb: seq<Feedback>)
    ensures |fb| == n && forall i :: 0 <= i < n ==> fb[i] == NoFeedback
  {
    seq(n, _ => NoFeedback)
  }

  /** The number of positions whose ids agree. */
  function CountMatches(user: seq<DialogueLine>, correct: seq<DialogueLine>): (n: nat)
    requires |user| <= |correct|
    ensures n <= |user|
  {
    if user == [] then 0
    else CountMatches(user[..|user| - 1], correct) + (if user[|user| - 1].id == correct[|user| - 1].id then 1 else 0)
  }

  /** All positions agree exactly when the count of agreeing positions is the length. */
  lemma {:induction false} CountMatchesAll(user: seq<DialogueLine>, correct: seq<DialogueLine>)
    requires |user| <= |correct|
    ensures CountMatches(user, correct) == |user| <==> forall i :: 0 <= i < |user| ==> user[i].id == correct[i].id
  {
    if user != [] {
      var init := user[..|user| - 1];
      CountMatchesAll(init, correct);
      assert forall i :: 0 <= i < |init| ==> init[i] == user[i];
    }
  }

  /** The puzzle completes exactly when the order has every line in the place of the sorted order. */
  lemma CompleteIff(user: seq<DialogueLine>, correct: seq<DialogueLine>)
    requires |user| <= |correct|
    ensures CountMatches(user, correct) == |correct| <==>
              |user| == |correct| && forall i :: 0 <= i < |user| ==> user[i].id == correct[i].id
  {
    CountMatchesAll(user, correct);
  }

  /**
   * With distinct ids, an arrangement of the conversation whose ids agree
   * position by position with the sorted order is the sorted conversation
   * itself: a completed puzzle shows the lines in the original order.
   */
  lemma CompletedIsSorted(user: seq<DialogueLine>, correct: seq<DialogueLine>)
    requires Sorting.SortedBy(correct, LineId) && Sorting.DistinctKeys(correct, LineId)
    requires multiset(user) == multiset(correct)
    requires |user| == |correct| && forall i :: 0 <= i < |user| ==> user[i].id == correct[i].id
    ensures user == correct
  {
    assert Sorting.SortedBy(user, LineId);
    Sorting.SortedUnique(correct, user, LineId);
  }

  /**
   * The marking pass of checkOrder: each position of the user's order is
   * marked by comparing its id with the sorted order's, counting the
   * correct ones.
   */
  method MarkPositions(user: seq<DialogueLine>, correct: seq<DialogueLine>) returns (correctCount: nat, marks: seq<Feedback>)
    requires |user| <= |correct|
    ensures correctCount == CountMatches(user, correct)
    ensures marks == PositionFeedback(user, correct)
  {
    correctCount := 0;
    marks := [];
    var index := 0;
    while index < |user|
      invariant 0 <= index <= |user|
      invariant correctCount == CountMatches(user[..index], correct)
      invariant marks == PositionFeedback(user[..index], correct)
    {
      assert user[..index + 1][..index] == user[..index];
      if user[index].id == correct[index].id {
        correctCount := correctCount + 1;
        marks := marks + [Correct];
      } else {
        marks := marks + [Incorrect];
      }
      index := index + 1;
    }
    assert user[..index] == user;
  }

  /**
   * The orders of a loaded conversation: the correct order is the lines
   * sorted by id, and (when ids are distinct) the user's order holds the
   * same lines.
   */
  ghost predicate Arranged(lines: seq<DialogueLine>, correctOrder: seq<DialogueLine>, userOrder: seq<DialogueLine>)
  {
    && Sorting.SortedBy(correctOrder, LineId)
    && multiset(correctOrder) == multiset(lines)
    && (Sorting.DistinctKeys(correctOrder, LineId) ==> multiset(userOrder) == multiset(correctOrder))
  }

  /** A freshly fetched conversation: sorted lines as the answer, shuffled lines as the user's order. */
  lemma FreshArrangement(lines: seq<DialogueLine>, draws: seq<nat>)
    requires Shuffle.ValidDraws(draws, |lines|)
    ensures Arranged(lines, Sorting.SortBy(lines, LineId), Shuffle.FisherYates(lines, draws))
  {
  }

  /** A drop keeps a loaded conversation arranged. */
  lemma ReorderArranged(lines: seq<DialogueLine>, correctOrder: seq<DialogueLine>, userOrder: seq<DialogueLine>,
                        draggedId: int, dropIndex: nat)
    requires Arranged(lines, correctOrder, userOrder)
    ensures Arranged(lines, correctOrder, Reorder(userOrder, draggedId, dropIndex))
    ensures Sorting.DistinctKeys(correctOrder, LineId) ==>
              multiset(Reorder(userOrder, draggedId, dropIndex)) == multiset(userOrder)
  {
    if Sorting.DistinctKeys(correctOrder, LineId) {
      Sorting.DistinctKeysPermutation(correctOrder, userOrder, LineId);
      ReorderPermutes(userOrder, draggedId, dropIndex);
    }
  }

  class Game {
    var dialogue: Option<Dialogue>
    var userOrder: seq<DialogueLine>
    var correctOrder: seq<DialogueLine>
    var feedback: seq<Feedback>
    var isLoading: bool
    var error: bool
    var isComplete: bool
    var score: nat
    var retries: nat

    predicate Loaded()
      reads this
    {
      !isLoading && !error
    }

    ghost predicate Valid()
      reads this
    {
      && |feedback| == |userOrder| <= |correctOrder|
      && (Loaded() ==> dialogue.Some? && Arranged(dialogue.value.lines, correctOrder, userOrder))
      && (isLoading ==> !error)
      && (isComplete ==> Loaded() && retries >= 1 && score == FinalScore(retries - 1))
      && (!isComplete ==> score == 0)
    }

    constructor ()
      ensures Valid() && isLoading && !isComplete
    {
      dialogue := None;
      userOrder := [];
      correctOrder := [];
      feedback := [];
      isLoading := true;
      error := false;
      isComplete := false;
      score := 0;
      retries := 0;
    }

    /**
     * fetchDialogue (on mount, Retry and Play Again), with the drawn scenario
     * index and the shuffle's draws.  Completion, retries and score are reset
     * first; a failed request (None) is an error.  Otherwise the correct
     * order is the lines sorted by id, the user's order the shuffled lines,
     * and every position unmarked.
     */
    method FetchDialogue(scenarioDraw: nat, fetched: Option<Dialogue>, draws: seq<nat>) returns (scenario: string)
      requires Valid() && (isLoading || error || isComplete)
      requires scenarioDraw < |Scenarios|
      requires fetched.Some? ==> Shuffle.ValidDraws(draws, |fetched.value.lines|)
      modifies this`error, this`isComplete, this`retries, this`score, this`isLoading
      modifies this`dialogue, this`correctOrder, this`userOrder, this`feedback
      ensures Valid()
      ensures scenario == Scenarios[scenarioDraw]
      ensures !isComplete && retries == 0 && score == 0 && !isLoading
      ensures error <==> fetched.None?
      ensures fetched.None? ==>
                && dialogue == old(dialogue) && correctOrder == old(correctOrder)
                && userOrder == old(userOrder) && feedback == old(feedback)
      ensures fetched.Some? ==>
                && dialogue == fetched
                && correctOrder == Sorting.SortBy(fetched.value.lines, LineId)
                && userOrder == Shuffle.FisherYates(fetched.value.lines, draws)
                && feedback == Unmarked(|userOrder|)
    {
      error := false;
      isComplete := false;
      retries := 0;
      score := 0;
      scenario := Scenarios[scenarioDraw];
      if fetched.None? {
        error := true;
        isLoading := false;
        return;
      }
      ShowDialogue(fetched.value, draws);
      isLoading := false;
    }

    /**
     * The successful part of fetchDialogue: the conversation is stored, its
     * lines sorted by id as the correct order and shuffled as the user's
     * order, and every position unmarked.
     */
    method ShowDialogue(fetched: Dialogue, draws: seq<nat>)
      requires Shuffle.ValidDraws(draws, |fetched.lines|)
      modifies this`dialogue, this`correctOrder, this`userOrder, this`feedback
      ensures dialogue == Some(fetched) && Arranged(fetched.lines, correctOrder, userOrder)
      ensures correctOrder == Sorting.SortBy(fetched.lines, LineId)
      ensures userOrder == Shuffle.FisherYates(fetched.lines, draws)
      ensures feedback == Unmarked(|userOrder|) && |userOrder| == |correctOrder|
    {
      var lines := fetched.lines;
      var sortedLines := Sorting.SortBy(lines, LineId);
      var shuffled := Shuffle.ShuffleWhile(lines, draws);
      FreshArrangement(lines, draws);
      dialogue := Some(fetched);
      correctOrder := sortedLines;
      userOrder := shuffled;
      feedback := Unmarked(|shuffled|);
    }

    /**
     * handleDrop of the line with the dragged id onto a shown position: the
     * line moves there and every mark is cleared; an unknown id changes
     * nothing.
     */
    method Drop(draggedId: int, dropIndex: nat)
      requires Valid() && Loaded() && !isComplete && dropIndex < |userOrder|
      modifies this`userOrder, this`feedback
      ensures Valid()
      ensures FindLine(old(userOrder), draggedId).None? ==> userOrder == old(userOrder) && feedback == old(feedback)
      ensures FindLine(old(userOrder), draggedId).Some? ==>
                userOrder == Reorder(old(userOrder), draggedId, dropIndex)
                && feedback == Unmarked(|userOrder|)
      ensures Sorting.DistinctKeys(correctOrder, LineId) ==> multiset(userOrder) == multiset(old(userOrder))
    {
      var draggedItem := FindLine(userOrder, draggedId);
      if draggedItem.None? {
        return;
      }
      ReorderArranged(dialogue.value.lines, correctOrder, userOrder, draggedId, dropIndex);
      var items := Reorder(userOrder, draggedId, dropIndex);
      userOrder := items;
      feedback := Unmarked(|items|);
    }

    /**
     * checkOrder: one more check is counted; each position is marked by
     * comparing its id with the sorted order's; when every position is
     * correct the puzzle completes with FinalScore of the checks before this
     * one, and the score is reported.
     */
    method CheckOrder() returns (reported: Option<int>)
      requires Valid() && Loaded() && !isComplete
      modifies this`retries, this`feedback, this`score, this`isComplete
      ensures Valid()
      ensures retries == old(retries) + 1
      ensures feedback == PositionFeedback(userOrder, correctOrder)
      ensures isComplete <==> |userOrder| == |correctOrder| && forall i :: 0 <= i < |userOrder| ==> userOrder[i].id == correctOrder[i].id
      ensures isComplete ==> score == FinalScore(old(retries)) && reported == Some(score)
      ensures !isComplete ==> score == 0 && reported.None?
    {
      var previousRetries := retries;
      retries := retries + 1;
      var correctCount, newFeedback := MarkPositions(userOrder, correctOrder);
      feedback := newFeedback;
      CompleteIff(userOrder, correctOrder);
      reported := None;
      if correctCount == |correctOrder| {
        var finalScore := FinalScore(previousRetries);
        score := finalScore;
        isComplete := true;
        reported := Some(score);
      }
    }
  }
}
