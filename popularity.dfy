/**
 * The popularity recommender's own logic (src/popularity.py): how the
 * candidate slots of one timestep are split between new and recommended
 * items, and the item-popularity row that accumulates interaction counts.
 */
module Popularity {
  import opened Common
  import opened Matrices

  /** How many of the slots go to new items and how many to recommendations; None where unset. */
  datatype Split = Split(numNew: Option<int>, numRecommended: Option<int>)

  /**
   * The slot split of `interact`. In startup mode every slot shows a new
   * item. In randomised mode `draw` is the value `np.random.randint(1,
   * perIter)` returned, which numpy refuses to draw when perIter <= 1. In
   * fixed mode the configured counts are used as they are.
   */
  function SlotSplit(startup: bool, randomize: bool, perIter: int,
                     configuredNew: Option<int>, configuredRecommended: Option<int>, draw: int): (r: Result<Split>)
    requires !startup && randomize && perIter > 1 ==> 1 <= draw < perIter
    ensures startup ==> r == Success(Split(Some(perIter), Some(0)))
    ensures !startup && randomize ==> (r.Success? <==> perIter > 1)
    ensures !startup && randomize && r.Success? ==>
      && r.value.numNew == Some(draw)
      && r.value.numRecommended.Some?
      && 1 <= r.value.numNew.value <= perIter - 1
      && 1 <= r.value.numRecommended.value <= perIter - 1
      && r.value.numNew.value + r.value.numRecommended.value == perIter
    ensures !startup && !randomize ==> r == Success(Split(configuredNew, configuredRecommended))
    ensures r.Failure? ==> r.error.ValueError?
  {
    if startup then
      Success(Split(Some(perIter), Some(0)))
    else if randomize then
      if perIter <= 1 then Failure(ValueError("low >= high"))
      else Success(Split(Some(draw), Some(perIter - draw)))
    else
      Success(Split(configuredNew, configuredRecommended))
  }

  /** What one call of `interact` decided: the split and the recommendations asked for (None in startup mode). */
  datatype Step = Step(split: Split, recommended: Option<Matrix>)

  /** The popularity row after a sequence of timesteps, each adding its interaction matrix. */
  function Accumulate(counts: Matrix, steps: seq<Matrix>): Option<Matrix>
    decreases |steps|
  {
    if |steps| == 0 then Some(counts)
    else
      match Accumulate(counts, steps[..|steps| - 1])
      case None => None
      case Some(c) => Add(c, steps[|steps| - 1])
  }

  /** How often item j was interacted with over the given one-row interaction matrices. */
  function ColumnTotal(steps: seq<Matrix>, numItems: nat, j: nat): int
    requires j < numItems && forall k :: 0 <= k < |steps| ==> IsShape(steps[k], 1, numItems)
    decreases |steps|
  {
    if |steps| == 0 then 0
    else
      var last := steps[|steps| - 1];
      assert IsShape(last, 1, numItems);
      ColumnTotal(steps[..|steps| - 1], numItems, j) + last[0][j]
  }

  /**
   * Starting from the all-zero row of a new recommender, the popularity row
   * after any number of timesteps with one-row interaction matrices keeps its
   * shape and holds, per item, the total of that item's interactions.
   */
  lemma {:induction false} AccumulatedCounts(numItems: nat, steps: seq<Matrix>)
    requires forall k :: 0 <= k < |steps| ==> IsShape(steps[k], 1, numItems)
    ensures Accumulate([Zeros(numItems)], steps).Some?
    ensures IsShape(Accumulate([Zeros(numItems)], steps).value, 1, numItems)
    ensures forall j :: 0 <= j < numItems ==> Accumulate([Zeros(numItems)], steps).value[0][j] == ColumnTotal(steps, numItems, j)
  {
    var z: Matrix := [Zeros(numItems)];
    if |steps| > 0 {
      var prefix := steps[..|steps| - 1];
      var last := steps[|steps| - 1];
      AccumulatedCounts(numItems, prefix);
      var c := Accumulate(z, prefix).value;
      var r := Add(c, last);
      assert r.Some?;
      forall j | 0 <= j < numItems
        ensures r.value[0][j] == ColumnTotal(steps, numItems, j)
      {
        assert Stretched(c, 0, j) == c[0][j];
        assert Stretched(last, 0, j) == last[0][j];
        assert steps[..|steps| - 1] == prefix;
      }
    }
  }

  class PopularityRecommender {
    var userProfiles: Matrix
    var itemAttributes: Matrix
    var numItemsPerIter: int
    var randomizeRecommended: bool
    var numRecommended: Option<int>
    var numNewItems: Option<int>

    /** A new recommender: every user profile is the single entry 1 and every item has count 0. */
    constructor (numUsers: nat, numItems: nat, numItemsPerIter: int, randomizeRecommended: bool,
                 numRecommended: Option<int>, numNewItems: Option<int>)
      ensures IsShape(userProfiles, numUsers, 1)
      ensures forall u :: 0 <= u < numUsers ==> userProfiles[u] == [1]
      ensures IsShape(itemAttributes, 1, numItems) && itemAttributes[0] == Zeros(numItems)
      ensures this.numItemsPerIter == numItemsPerIter && this.randomizeRecommended == randomizeRecommended
      ensures this.numRecommended == numRecommended && this.numNewItems == numNewItems
    {
      var ones := seq(numUsers, _ => [1]);
      assert Rect(ones) by {
        if numUsers > 0 { assert Cols(ones) == 1; }
      }
      userProfiles := ones;
      itemAttributes := [Zeros(numItems)];
      this.numItemsPerIter := numItemsPerIter;
      this.randomizeRecommended := randomizeRecommended;
      this.numRecommended := numRecommended;
      this.numNewItems := numNewItems;
    }

    /**
     * `_store_interaction`: the popularity counts become the elementwise sum
     * of the old counts and the interaction matrix; the user profiles stay.
     */
    method StoreInteraction(interactions: Matrix) returns (err: Option<Error>)
      modifies this`itemAttributes
      ensures Add(old(itemAttributes), interactions).Some? ==>
        err.None? && itemAttributes == Add(old(itemAttributes), interactions).value
      ensures Add(old(itemAttributes), interactions).None? ==>
        err.Some? && err.value.ValueError? && itemAttributes == old(itemAttributes)
      ensures IsShape(interactions, |old(itemAttributes)|, Cols(old(itemAttributes))) ==>
        && err.None?
        && IsShape(itemAttributes, |old(itemAttributes)|, Cols(old(itemAttributes)))
        && forall i, j :: 0 <= i < |itemAttributes| && 0 <= j < Cols(itemAttributes) ==>
             itemAttributes[i][j] == old(itemAttributes)[i][j] + interactions[i][j]
      ensures userProfiles == old(userProfiles)
    {
      var sum := Add(itemAttributes, interactions);
      if sum.None? {
        return Some(ValueError("operands could not be broadcast together"));
      }
      if IsShape(interactions, |itemAttributes|, Cols(itemAttributes)) {
        forall i, j | 0 <= i < |itemAttributes| && 0 <= j < Cols(itemAttributes)
          ensures sum.value[i][j] == itemAttributes[i][j] + interactions[i][j]
        {
          assert Stretched(itemAttributes, i, j) == itemAttributes[i][j];
          assert Stretched(interactions, i, j) == interactions[i][j];
        }
      }
      itemAttributes := sum.value;
      return None;
    }

    /**
     * `interact`: split the slots, ask for recommendations unless in startup
     * mode, check that as many were returned as asked for, and add the
     * timestep's interaction matrix into the popularity counts. The
     * recommender's `recommend` and the interaction matrix that the shown
     * items produce are supplied from outside.
     */
    method Interact(startup: bool, draw: int, recommend: Option<int> -> Matrix, interactionMatrix: Matrix)
      returns (r: Result<Step>)
      requires !startup && randomizeRecommended && numItemsPerIter > 1 ==> 1 <= draw < numItemsPerIter
      modifies this`itemAttributes
      ensures r.Failure? ==> itemAttributes == old(itemAttributes)
      ensures
        var split := SlotSplit(startup, randomizeRecommended, numItemsPerIter, numNewItems, numRecommended, draw);
        && (split.Failure? ==> r == Failure(split.error))
        && (r.Success? ==>
              && split.Success? && r.value.split == split.value
              && (startup <==> r.value.recommended.None?)
              && (!startup ==> r.value.recommended == Some(recommend(split.value.numRecommended)))
              && r.value.split.numRecommended.Some?
              && (r.value.split.numRecommended.value > 0 ==>
                    Cols(r.value.recommended.value) == r.value.split.numRecommended.value)
              && Add(old(itemAttributes), interactionMatrix).Some?
              && itemAttributes == Add(old(itemAttributes), interactionMatrix).value)
      ensures
        var split := SlotSplit(startup, randomizeRecommended, numItemsPerIter, numNewItems, numRecommended, draw);
        split.Success? ==>
          var n := split.value.numRecommended;
          var asked := if startup then None else Some(recommend(n));
          && (n.None? ==> r.Failure? && r.error.TypeError?)
          && (n.Some? && n.value > 0 && Cols(asked.value) != n.value ==> r == Failure(AssertionError))
          && (n.Some? && (n.value > 0 ==> Cols(asked.value) == n.value) ==>
                && (r.Success? <==> Add(old(itemAttributes), interactionMatrix).Some?)
                && (r.Failure? ==> r.error.ValueError?)
                && (r.Success? ==> r.value == Step(split.value, asked)))
    {
      var split := SlotSplit(startup, randomizeRecommended, numItemsPerIter, numNewItems, numRecommended, draw);
      if split.Failure? {
        return Failure(split.error);
      }
      var s := split.value;
      var recommended: Option<Matrix> := None;
      if !startup {
        recommended := Some(recommend(s.numRecommended));
      }
      if s.numRecommended.None? {
        return Failure(TypeError("'>' not supported between instances of 'NoneType' and 'int'"));
      }
      if s.numRecommended.value > 0 && Cols(recommended.value) != s.numRecommended.value {
        return Failure(AssertionError);
      }
      var err := StoreInteraction(interactionMatrix);
      if err.Some? {
        return Failure(err.value);
      }
      return Success(Step(s, recommended));
    }
  }
}
