/**
  The bounded retry loop that both call sites run for one furniture item:
  draw a candidate corner, accept it if the item placed there overlaps none
  of the blocking rectangles, otherwise count the attempt and draw again,
  until the attempt budget is used up (app.py:155-168 with a budget of 100,
  create_dataset.py:84-111 with a budget of 1000).

  The random source is injected: `draws[k]` is the corner drawn on attempt k.
 */
module Retry {
  import opened Geometry

  /** How the loop ended: accepted on attempt `attempt` at corner `at`, or
      with `attempt == max_attempts`. */
  datatype Attempt = Accepted(at: Point, attempt: nat) | Exhausted

  /** The item placed with its corner at `p` hits a blocking rectangle. */
  predicate Blocked(blocked: seq<Rect>, p: Point, width: real, height: real)
  {
    OverlapsAny(RectAt(p, width, height), blocked)
  }

  /** The loop from attempt number `attempt` on. */
  function SearchFrom(blocked: seq<Rect>, width: real, height: real,
                      draws: seq<Point>, budget: nat, attempt: nat): (r: Attempt)
    requires attempt <= budget <= |draws|
    ensures r.Accepted? ==> attempt <= r.attempt < budget && r.at == draws[r.attempt]
    ensures r.Accepted? ==> !Blocked(blocked, r.at, width, height)
    decreases budget - attempt
  {
    if attempt == budget then Exhausted
    else if !Blocked(blocked, draws[attempt], width, height) then Accepted(draws[attempt], attempt)
    else SearchFrom(blocked, width, height, draws, budget, attempt + 1)
  }

  /** Every attempt the loop passed over was blocked, and it runs out of
      attempts exactly when every remaining draw is blocked. */
  lemma {:induction false} SearchFromFirstFit(blocked: seq<Rect>, width: real, height: real,
                                              draws: seq<Point>, budget: nat, attempt: nat)
    requires attempt <= budget <= |draws|
    ensures var r := SearchFrom(blocked, width, height, draws, budget, attempt);
      r.Accepted? ==> forall k :: attempt <= k < r.attempt ==> Blocked(blocked, draws[k], width, height)
    ensures SearchFrom(blocked, width, height, draws, budget, attempt).Exhausted? <==>
      forall k :: attempt <= k < budget ==> Blocked(blocked, draws[k], width, height)
    decreases budget - attempt
  {
    if attempt < budget && Blocked(blocked, draws[attempt], width, height) {
      SearchFromFirstFit(blocked, width, height, draws, budget, attempt + 1);
    }
  }

  /** The whole loop: an accepted corner is a draw within the budget that is
      not blocked. Draws past the budget are never looked at. */
  function Search(blocked: seq<Rect>, width: real, height: real,
                  draws: seq<Point>, budget: nat): (r: Attempt)
    requires budget <= |draws|
    ensures r.Accepted? ==> r.attempt < budget && r.at == draws[r.attempt]
    ensures r.Accepted? ==> !Blocked(blocked, r.at, width, height)
  {
    SearchFrom(blocked, width, height, draws, budget, 0)
  }

  /** The result is the FIRST draw within the budget that is not blocked,
      and the loop is exhausted exactly when every draw within the budget is
      blocked. */
  lemma SearchFirstFit(blocked: seq<Rect>, width: real, height: real, draws: seq<Point>, budget: nat)
    requires budget <= |draws|
    ensures var r := Search(blocked, width, height, draws, budget);
      r.Accepted? ==> forall k :: 0 <= k < r.attempt ==> Blocked(blocked, draws[k], width, height)
    ensures Search(blocked, width, height, draws, budget).Exhausted? <==>
      forall k :: 0 <= k < budget ==> Blocked(blocked, draws[k], width, height)
  {
    SearchFromFirstFit(blocked, width, height, draws, budget, 0);
  }
}
