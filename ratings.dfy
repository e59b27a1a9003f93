/** Ratings: the store of (user, item, rating) observations and the reward
    lookup the trainer performs against it. */
module Ratings {
  import opened Labels

  /** One row of the ratings frame. */
  datatype Observation = Observation(user: int, item: int, rating: real)

  predicate Matches(o: Observation, user: int, item: int) {
    o.user == user && o.item == item
  }

  /** `get_rating`: the rating of the first observation for (user, item),
      or 0 when the pair was never rated. */
  function GetRating(obs: seq<Observation>, user: int, item: int): real {
    if obs == [] then 0.0
    else if Matches(obs[0], user, item) then obs[0].rating
    else GetRating(obs[1..], user, item)
  }

  /** A pair that was never rated gets the neutral reward 0; a rated pair
      gets the rating of its first observation, whatever comes after it. */
  lemma {:induction false} GetRatingFirstMatch(obs: seq<Observation>, user: int, item: int)
    ensures (forall k :: 0 <= k < |obs| ==> !Matches(obs[k], user, item)) ==> GetRating(obs, user, item) == 0.0
    ensures forall k ::
              (0 <= k < |obs| && Matches(obs[k], user, item) &&
               forall j :: 0 <= j < k ==> !Matches(obs[j], user, item)) ==> GetRating(obs, user, item) == obs[k].rating
  {
    if obs != [] && !Matches(obs[0], user, item) {
      GetRatingFirstMatch(obs[1..], user, item);
      assert forall k :: 1 <= k < |obs| ==> obs[1..][k - 1] == obs[k];
    }
  }

  /** With non-negative ratings every reward is non-negative. */
  lemma {:induction false} GetRatingNonNegative(obs: seq<Observation>, user: int, item: int)
    requires forall k :: 0 <= k < |obs| ==> obs[k].rating >= 0.0
    ensures GetRating(obs, user, item) >= 0.0
  {
    if obs != [] && !Matches(obs[0], user, item) {
      GetRatingNonNegative(obs[1..], user, item);
    }
  }

  /** The 'user_id' column. */
  function UserColumn(obs: seq<Observation>): (c: seq<int>)
    ensures |c| == |obs| && forall k :: 0 <= k < |obs| ==> c[k] == obs[k].user
  {
    seq(|obs|, k requires 0 <= k < |obs| => obs[k].user)
  }

  /** The 'item_id' column. */
  function ItemColumn(obs: seq<Observation>): (c: seq<int>)
    ensures |c| == |obs| && forall k :: 0 <= k < |obs| ==> c[k] == obs[k].item
  {
    seq(|obs|, k requires 0 <= k < |obs| => obs[k].item)
  }

  /** The user universe: distinct user ids in order of first appearance. */
  function Users(obs: seq<Observation>): seq<int> {
    Unique(UserColumn(obs))
  }

  /** The item universe: distinct item ids in order of first appearance. */
  function Items(obs: seq<Observation>): seq<int> {
    Unique(ItemColumn(obs))
  }

  /** The two universes are empty together: both are empty exactly when
      there are no observations. */
  lemma UniversesEmptyTogether(obs: seq<Observation>)
    ensures |Users(obs)| == 0 <==> |obs| == 0
    ensures |Items(obs)| == 0 <==> |obs| == 0
  {
    if |obs| > 0 {
      assert UserColumn(obs)[0] in Users(obs);
      assert ItemColumn(obs)[0] in Items(obs);
    }
  }
}
