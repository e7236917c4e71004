/** The reward display arithmetic that the staff grant page and the customer's
    card view compute identically: how many of the `required` slots are filled,
    how many stamps are still missing, and the progress bar's width. */
module Reward {

  /** The display fields for a stamp count. JavaScript computes the progress as
      the float `min(points / required * 100, 100)`; here it is kept exact as a
      numerator over `required`: progress = `progressScaled / required`. */
  datatype Evaluation = Evaluation(filled: int, remaining: int, progressScaled: int)

  /** `filled = Math.min(points, required)`, `remaining = Math.max(required - points, 0)`,
      `progress = Math.min((points / required) * 100, 100)`. */
  function Evaluate(points: int, required: nat): (e: Evaluation)
    // filled is the smaller of the two
    ensures e.filled <= points && e.filled <= required && (e.filled == points || e.filled == required)
    // remaining is what is missing, floored at zero
    ensures e.remaining >= 0 && e.remaining >= required - points
    ensures e.remaining == 0 || e.remaining == required - points
    // together they always make up the whole card
    ensures e.filled + e.remaining == required
    ensures e.remaining == 0 <==> points >= required
    // the bar is capped at 100 and is full exactly when the reward is reached
    ensures e.progressScaled <= 100 * required
    ensures e.progressScaled == 100 * required <==> points >= required
    ensures points <= required ==> e.progressScaled == 100 * points
    ensures points >= 0 ==> e.filled >= 0 && e.progressScaled >= 0
  {
    Evaluation(
      if points < required then points else required,
      if required - points > 0 then required - points else 0,
      if points * 100 < required * 100 then points * 100 else required * 100)
  }

  /** The row of `required` dots, dot `i` marked filled when `i < filled`. */
  function Dots(required: nat, filled: int): (d: seq<bool>)
    ensures |d| == required
    // the filled dots are a prefix of the row
    ensures forall i, j :: 0 <= i < j < required && d[j] ==> d[i]
  {
    seq(required, i => i < filled)
  }

  /** How many dots are marked filled. */
  function CountFilled(d: seq<bool>): nat {
    if d == [] then 0 else CountFilled(d[..|d| - 1]) + (if d[|d| - 1] then 1 else 0)
  }

  /** The row shows `filled` clamped into `0..required` marked dots. */
  lemma {:induction false} DotsCount(required: nat, filled: int)
    ensures CountFilled(Dots(required, filled)) ==
      if filled < 0 then 0 else if filled > required then required else filled
  {
    if required > 0 {
      DotsCount(required - 1, filled);
      assert Dots(required, filled)[..required - 1] == Dots(required - 1, filled);
    }
  }

  /** For a non-negative count, exactly `filled` of the `required` dots are
      marked, namely those at indices `0 .. filled - 1`. */
  lemma EvaluatedDots(points: int, required: nat)
    requires points >= 0
    ensures var e := Evaluate(points, required);
      && CountFilled(Dots(required, e.filled)) == e.filled
      && forall i :: 0 <= i < required ==> (Dots(required, e.filled)[i] <==> i < e.filled)
  {
    DotsCount(required, Evaluate(points, required).filled);
  }
}
