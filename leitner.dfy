/**
 * The Leitner box transition, stated once. `Card.review` (models/card.py) and the
 * review handler of app.py each compute it; both are proved to agree with NextBox.
 */
module Leitner {

  const MinBox := 1
  const MaxBox := 5

  function Min(a: int, b: int): int { if a <= b then a else b }

  /**
   * The box a card lands in after one review: a correct answer promotes it by
   * one box, saturating at the last box; a wrong answer sends it back to box 1.
   */
  function NextBox(box: int, correct: bool): (r: int)
    ensures correct && box < MaxBox ==> r == box + 1
    ensures correct && box >= MaxBox ==> r == MaxBox
    ensures !correct ==> r == MinBox
    ensures MinBox <= box <= MaxBox ==> MinBox <= r <= MaxBox
    ensures MinBox <= box <= MaxBox ==>
              (r == box <==> (correct && box == MaxBox) || (!correct && box == MinBox))
  {
    if correct then Min(box + 1, MaxBox) else MinBox
  }

  /** The box after a run of reviews, answered in order. */
  function BoxAfter(box: int, outcomes: seq<bool>): int
  {
    if outcomes == [] then box
    else NextBox(BoxAfter(box, outcomes[..|outcomes| - 1]), outcomes[|outcomes| - 1])
  }

  /** How many of the latest answers were correct in a row. */
  function TrailingCorrect(outcomes: seq<bool>): (n: nat)
    ensures n <= |outcomes|
  {
    if outcomes == [] || !outcomes[|outcomes| - 1] then 0
    else 1 + TrailingCorrect(outcomes[..|outcomes| - 1])
  }

  /**
   * A card's box depends only on its current streak of correct answers: after
   * any wrong answer it is 1 plus the streak since the last mistake, and with no
   * mistake at all it is the starting box plus the number of reviews, capped at 5.
   */
  lemma {:induction false} BoxAfterStreak(box: int, outcomes: seq<bool>)
    requires box <= MaxBox
    ensures BoxAfter(box, outcomes)
         == Min((if false in outcomes then MinBox else box) + TrailingCorrect(outcomes), MaxBox)
  {
    if outcomes != [] {
      var init := outcomes[..|outcomes| - 1];
      BoxAfterStreak(box, init);
      assert outcomes == init + [outcomes[|outcomes| - 1]];
      assert (false in outcomes) == (false in init || !outcomes[|outcomes| - 1]);
    }
  }

  /** From any box, at most four correct answers in a row reach the last box, and it is kept. */
  lemma AllCorrectReachesLastBox(box: int, outcomes: seq<bool>)
    requires MinBox <= box <= MaxBox
    requires forall i | 0 <= i < |outcomes| :: outcomes[i]
    ensures BoxAfter(box, outcomes) == Min(box + |outcomes|, MaxBox)
    ensures |outcomes| >= MaxBox - MinBox ==> BoxAfter(box, outcomes) == MaxBox
  {
    BoxAfterStreak(box, outcomes);
    AllTrueStreak(outcomes);
  }

  lemma {:induction false} AllTrueStreak(outcomes: seq<bool>)
    requires forall i | 0 <= i < |outcomes| :: outcomes[i]
    ensures false !in outcomes && TrailingCorrect(outcomes) == |outcomes|
  {
    if outcomes != [] {
      AllTrueStreak(outcomes[..|outcomes| - 1]);
    }
  }

  /** Reviews keep a card inside the five boxes. */
  lemma {:induction false} BoxAfterInRange(box: int, outcomes: seq<bool>)
    requires MinBox <= box <= MaxBox
    ensures MinBox <= BoxAfter(box, outcomes) <= MaxBox
  {
    if outcomes != [] {
      BoxAfterInRange(box, outcomes[..|outcomes| - 1]);
    }
  }
}
