/**
 * The earlier user component (rec/users.py): hidden profiles and actual
 * scores held as values and rebound, with the same choice rule as the newer
 * version and no drift or history.
 */
module RecUsers {
  import opened Common
  import opened Matrices
  import opened Validation
  import opened Choice

  /**
   * The function passed to `compute_user_scores`, applied to the profiles;
   * the further arguments the caller passes along are fixed inside it.
   */
  type TrainFn = Matrix -> Matrix

  class Users {
    var profiles: Matrix
    var scores: Option<Matrix>

    constructor (profiles: Matrix)
      ensures this.profiles == profiles && scores.None?
    {
      this.profiles := profiles;
      scores := None;
    }

    /** `compute_user_scores`: a non-callable is refused and the scores kept; otherwise they are rebound. */
    method ComputeUserScores(train: CallableArg<TrainFn>) returns (err: Option<Error>)
      modifies this`scores
      ensures train.Callable? ==> err.None? && scores == Some(train.f(profiles))
      ensures !train.Callable? ==> err == Some(TypeError("train_function must be callable")) && scores == old(scores)
    {
      if !train.Callable? {
        return Some(TypeError("train_function must be callable"));
      }
      scores := Some(train.f(profiles));
      return None;
    }

    /** `get_actual_user_scores`; its contract is that of ScoresQuery. */
    function GetActualUserScores(user: Option<int>): (r: Result<ScoresView>)
      reads this
      ensures user.None? ==> r == Success(Whole(scores))
      ensures user.Some? ==> (r.Success? <==> scores.Some? && ValidIndex(|scores.value|, user.value))
      ensures user.Some? && scores.None? ==> r.Failure? && r.error.TypeError?
      ensures user.Some? && r.Success? ==>
        r.value == UserRow(scores.value[Resolve(|scores.value|, user.value)])
    {
      ScoresQuery(scores, user)
    }

    /**
     * `get_user_feedback(items, user_vector)`, where the caller passes
     * `user_vector[u] == u`: one best-scoring shown item per row of `items`.
     * Being a function of the state, it changes neither profiles nor scores.
     */
    function GetUserFeedback(items: Matrix, userVector: seq<int>): (r: Result<seq<int>>)
      requires forall u :: 0 <= u < |userVector| ==> userVector[u] == u
      reads this
      ensures r.Success? <==>
        && |userVector| == |items|
        && scores.Some?
        && |items| <= |scores.value|
        && ItemsValid(scores.value, items)
        && (|items| > 0 ==> Cols(items) > 0)
      ensures r.Success? ==> |r.value| == |items|
      ensures r.Success? ==> forall u :: 0 <= u < |items| ==> IsBestShown(scores.value[u], items[u], r.value[u])
      ensures |userVector| != |items| ==> r.Failure? && r.error.ValueError?
    {
      Feedback(scores, items, |userVector|)
    }
  }

  /**
   * `Users(...)`: the argument checks (those of CheckUserArgs; the older
   * version takes no initial scores), then the profiles (given, or one draw
   * of the random generator of the requested size). The behaviour function is
   * checked but not kept.
   */
  method NewUsers<F>(profiles: ArrayArg, interact: CallableArg<F>, size: SizeArg, draw: Matrix)
    returns (r: Result<Users>)
    requires size.SizeTuple? ==> IsShape(draw, size.rows, size.cols)
    ensures CheckUserArgs(profiles, interact, size).Some? ==> r == Failure(CheckUserArgs(profiles, interact, size).value)
    ensures CheckUserArgs(profiles, interact, size).None? <==> r.Success?
    ensures r.Success? ==>
      && fresh(r.value) && r.value.scores.None?
      && r.value.profiles == (if profiles.ArrayLike? then profiles.m else draw)
      && (profiles.Absent? ==> IsShape(r.value.profiles, size.rows, size.cols))
  {
    var check := CheckUserArgs(profiles, interact, size);
    if check.Some? {
      return Failure(check.value);
    }
    var u := new Users(if profiles.ArrayLike? then profiles.m else draw);
    return Success(u);
  }
}
