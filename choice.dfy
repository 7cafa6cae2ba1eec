/**
 * The default user behaviour shared by both versions of Users: every user
 * interacts with one of the items shown to them whose actual score is
 * largest, and the row query on the actual score matrix.
 */
module Choice {
  import opened Common
  import opened Matrices

  /** Every shown item is a valid numpy index into a score row of the given width. */
  predicate ShownValid(width: nat, shown: seq<int>) {
    forall c :: 0 <= c < |shown| ==> ValidIndex(width, shown[c])
  }

  /** The scores one user gives to the items of one shown row. */
  function ShownScores(scoreRow: seq<int>, shown: seq<int>): (v: seq<int>)
    requires ShownValid(|scoreRow|, shown)
    ensures |v| == |shown|
    ensures forall c :: 0 <= c < |shown| ==> v[c] == At(scoreRow, shown[c])
  {
    seq(|shown|, c requires 0 <= c < |shown| => At(scoreRow, shown[c]))
  }

  /**
   * The position of a largest value, as `argsort()` followed by taking the
   * last position: among equal maxima the model picks the last one, a
   * tie-break the contract leaves open because numpy's default sort is not stable.
   */
  function LastArgMax(vals: seq<int>): (k: nat)
    requires |vals| > 0
    ensures k < |vals|
    ensures forall j :: 0 <= j < |vals| ==> vals[j] <= vals[k]
  {
    if |vals| == 1 then 0
    else
      var k' := LastArgMax(vals[..|vals| - 1]);
      if vals[k'] <= vals[|vals| - 1] then |vals| - 1 else k'
  }

  /** `item` is shown to the user and no shown item scores higher. */
  predicate IsBestShown(scoreRow: seq<int>, shown: seq<int>, item: int) {
    && item in shown
    && ValidIndex(|scoreRow|, item)
    && ShownValid(|scoreRow|, shown)
    && forall c :: 0 <= c < |shown| ==> At(scoreRow, shown[c]) <= At(scoreRow, item)
  }

  /** The item one user interacts with. */
  function ChooseItem(scoreRow: seq<int>, shown: seq<int>): (item: int)
    requires |shown| > 0 && ShownValid(|scoreRow|, shown)
    ensures IsBestShown(scoreRow, shown, item)
  {
    shown[LastArgMax(ShownScores(scoreRow, shown))]
  }

  /** Two best shown items score the same: the choice is fixed up to ties. */
  lemma BestShownScoresEqual(scoreRow: seq<int>, shown: seq<int>, a: int, b: int)
    requires IsBestShown(scoreRow, shown, a) && IsBestShown(scoreRow, shown, b)
    ensures At(scoreRow, a) == At(scoreRow, b)
  {
  }

  /** Every shown item is a valid column of the score matrix. */
  predicate ItemsValid(scores: Matrix, items: Matrix) {
    forall u :: 0 <= u < |items| ==> ShownValid(Cols(scores), items[u])
  }

  /**
   * The default choice rule on a score matrix (None while no scores exist),
   * a |U| x k matrix of shown items and a user vector of length numUsers:
   * reshaping the user vector to one column per row of `items` fails unless
   * the lengths agree; indexing missing scores fails; a user row or an item
   * outside the score matrix, or rows with no shown item, are index errors.
   */
  function Feedback(scores: Option<Matrix>, items: Matrix, numUsers: nat): (r: Result<seq<int>>)
    ensures r.Success? <==>
      && numUsers == |items|
      && scores.Some?
      && |items| <= |scores.value|
      && ItemsValid(scores.value, items)
      && (|items| > 0 ==> Cols(items) > 0)
    ensures r.Success? ==> |r.value| == |items|
    ensures r.Success? ==> forall u :: 0 <= u < |items| ==> IsBestShown(scores.value[u], items[u], r.value[u])
    ensures numUsers != |items| ==> r.Failure? && r.error.ValueError?
    ensures numUsers == |items| && scores.None? ==> r.Failure? && r.error.TypeError?
  {
    if numUsers != |items| then
      Failure(ValueError("cannot reshape the user vector to one row per user"))
    else if scores.None? then
      Failure(TypeError("'NoneType' object is not subscriptable"))
    else if |items| > |scores.value| || !ItemsValid(scores.value, items) || (|items| > 0 && Cols(items) == 0) then
      Failure(IndexError)
    else
      var s := scores.value;
      Success(seq(|items|, u requires 0 <= u < |items| => ChooseItem(s[u], items[u])))
  }

  /** What the score query returns: the whole matrix (None while unset) or one user's row. */
  datatype ScoresView = Whole(m: Option<Matrix>) | UserRow(row: seq<int>)

  /** `actual_user_scores` when no user is given, else `actual_user_scores[user, :]`. */
  function ScoresQuery(scores: Option<Matrix>, user: Option<int>): (r: Result<ScoresView>)
    ensures user.None? ==> r == Success(Whole(scores))
    ensures user.Some? ==> (r.Success? <==> scores.Some? && ValidIndex(|scores.value|, user.value))
    ensures user.Some? && r.Success? ==>
      r.value == UserRow(scores.value[Resolve(|scores.value|, user.value)])
  {
    match user
    case None => Success(Whole(scores))
    case Some(u) =>
      if scores.None? then Failure(TypeError("'NoneType' object is not subscriptable"))
      else if !ValidIndex(|scores.value|, u) then Failure(IndexError)
      else Success(UserRow(scores.value[Resolve(|scores.value|, u)]))
  }

  /** The row a user query returns is that user's row of the whole matrix; a negative user counts from the end. */
  lemma RowQueryIsRowOfWhole(scores: Option<Matrix>, u: int)
    requires scores.Some? && ValidIndex(|scores.value|, u)
    ensures var w := ScoresQuery(scores, None).value.m.value;
      ScoresQuery(scores, Some(u)) == Success(UserRow(w[if u >= 0 then u else |w| + u]))
  {
  }
}
