/**
 * The newer user component (trecs/components/users.py): hidden user
 * profiles, the actual user x item score matrix held in an array that is
 * overwritten in place, and the history of copies of that matrix.
 */
module TrecsUsers {
  import opened Common
  import opened Matrices
  import opened Validation
  import opened Choice

  /** The score function: (user profiles, item attributes) -> user x item scores. */
  type ScoreFn = (Matrix, Matrix) -> Matrix

  /** The keyword arguments of get_user_feedback the default rule reads. */
  datatype FeedbackArgs = FeedbackArgs(itemsShown: Option<Matrix>, itemAttributes: Option<Matrix>)

  /** A behaviour function installed in place of the default choice rule. */
  type InteractFn = FeedbackArgs -> seq<int>

  /** Spherical interpolation of profiles towards consumed items by a fraction `drift`. */
  type SlerpFn = (Matrix, Matrix, real) -> Matrix

  /** Some row of `m` is the all-zero vector of length `cols`. */
  predicate HasZeroRow(m: Matrix, cols: nat) {
    exists i :: 0 <= i < |m| && m[i] == Zeros(cols)
  }

  /**
   * The regeneration loop for random profiles: `draws` are the generator's
   * successive outputs. The loop stops at the first draw with no all-zero
   * row; if every draw has one, the model reports GeneratorExhausted where
   * the Python loop would keep drawing.
   */
  method GenerateProfiles(cols: nat, draws: seq<Matrix>) returns (r: Result<Matrix>)
    ensures r.Success? ==> !HasZeroRow(r.value, cols)
    ensures r.Success? ==>
      exists k :: 0 <= k < |draws| && r.value == draws[k] && forall j :: 0 <= j < k ==> HasZeroRow(draws[j], cols)
    ensures r.Failure? ==>
      r.error == GeneratorExhausted && forall j :: 0 <= j < |draws| ==> HasZeroRow(draws[j], cols)
  {
    var k := 0;
    while k < |draws| && HasZeroRow(draws[k], cols)
      invariant 0 <= k <= |draws|
      invariant forall j :: 0 <= j < k ==> HasZeroRow(draws[j], cols)
    {
      k := k + 1;
    }
    if k == |draws| {
      return Failure(GeneratorExhausted);
    }
    return Success(draws[k]);
  }

  /** The constructor's checks: those shared with the older version, then the type of the initial scores. */
  function CheckInit(profiles: ArrayArg, scores: ArrayArg, interact: CallableArg<InteractFn>, size: SizeArg): (r: Option<Error>)
    ensures r.None? <==>
      !profiles.NotArray? && !interact.NotCallable? && (profiles.Absent? ==> size.SizeTuple?) && !scores.NotArray?
    ensures (r.Some? && r.value.ValueError?) <==>
      !profiles.NotArray? && !interact.NotCallable? && profiles.Absent? && size.NoSize?
    ensures r.Some? ==> r.value.TypeError? || r.value.ValueError?
  {
    match CheckUserArgs(profiles, interact, size)
    case Some(e) => Some(e)
    case None =>
      if scores.NotArray? then Some(TypeError("actual_user_profiles must be a list or numpy.ndarray"))
      else None
  }

  /**
   * What `compute_user_scores` leaves as the score matrix when the score
   * function returned `result`: the result itself while no matrix is stored
   * (`current` is None), else the result broadcast into the stored shape.
   */
  function Recompute(current: Option<(nat, nat)>, result: Matrix): (r: Result<Matrix>)
    ensures current.None? ==> r == Success(result)
    ensures current.Some? ==> (r.Success? <==> BroadcastTo(result, current.value.0, current.value.1).Some?)
    ensures current.Some? && r.Success? ==> IsShape(r.value, current.value.0, current.value.1)
    ensures current.Some? && r.Success? ==> r.value == BroadcastTo(result, current.value.0, current.value.1).value
    ensures current.Some? && IsShape(result, current.value.0, current.value.1) ==> r == Success(result)
    ensures r.Failure? ==> r.error.ValueError?
  {
    match current
    case None => Success(result)
    case Some((rows, cols)) =>
      match BroadcastTo(result, rows, cols)
      case None => Failure(ValueError("could not broadcast input array"))
      case Some(m) => Success(m)
  }

  /** The default rule reads `user_vector`, which exists only when `num_users` was given. */
  function DefaultFeedback(scores: Option<Matrix>, items: Matrix, numUsers: Option<nat>): (r: Result<seq<int>>)
    ensures numUsers.None? ==> r == Failure(AttributeError)
    ensures numUsers.Some? ==> (r.Success? <==> Feedback(scores, items, numUsers.value).Success?)
    ensures r.Success? ==>
      && numUsers == Some(|items|) && scores.Some? && |items| <= |scores.value|
      && |r.value| == |items|
      && forall u :: 0 <= u < |items| ==> IsBestShown(scores.value[u], items[u], r.value[u])
  {
    if numUsers.None? then Failure(AttributeError) else Feedback(scores, items, numUsers.value)
  }

  /** `item_attributes.T[interactions, :]`: row u is the attribute column of the item user u chose. */
  function ConsumedAttributes(attrs: Matrix, chosen: seq<int>): (r: Result<Matrix>)
    ensures r.Success? <==> ShownValid(Cols(attrs), chosen)
    ensures r.Success? ==> |r.value| == |chosen|
    ensures r.Success? ==> forall u, a :: 0 <= u < |chosen| && 0 <= a < |attrs| ==>
      |r.value[u]| == |attrs| && r.value[u][a] == At(attrs[a], chosen[u])
  {
    if !ShownValid(Cols(attrs), chosen) then Failure(IndexError)
    else
      var m := seq(|chosen|, u requires 0 <= u < |chosen| =>
        seq(|attrs|, a requires 0 <= a < |attrs| => At(attrs[a], chosen[u])));
      assert Rect(m) by {
        if |chosen| > 0 { assert Cols(m) == |attrs|; }
      }
      Success(m)
  }

  /** `target[:, :] = src` for a source of the target's own shape, in place. */
  method Overwrite(target: array2<int>, src: Matrix)
    requires IsShape(src, target.Length0, target.Length1)
    modifies target
    ensures ToMatrix(target) == src
  {
    forall i, j | 0 <= i < target.Length0 && 0 <= j < target.Length1 {
      target[i, j] := src[i][j];
    }
    var c := ToMatrix(target);
    forall i | 0 <= i < |c| ensures c[i] == src[i] {
      assert |c[i]| == |src[i]|;
    }
  }

  class Users {
    var profiles: Matrix
    var scores: array2?<int>
    var interactWithItems: Option<InteractFn>
    var drift: real
    var scoreFn: Option<ScoreFn>
    /** `num_users`; `user_vector` is 0 .. num_users - 1, absent when None. */
    var numUsers: Option<nat>
    var history: seq<Option<Matrix>>

    /** The actual user scores, None while unset. */
    function ScoresValue(): Option<Matrix>
      reads this, scores
    {
      if scores == null then None else Some(ToMatrix(scores))
    }

    function ShapeOf(): Option<(nat, nat)>
      reads this
    {
      if scores == null then None else Some((scores.Length0, scores.Length1))
    }

    /** Neither the profiles, the score matrix nor the history changed. */
    twostate predicate Untouched()
      reads this, scores
    {
      profiles == old(profiles) && scores == old(scores) && ScoresValue() == old(ScoresValue())
      && history == old(history)
    }

    /**
     * The effect of `compute_user_scores(itemAttributes)`, reporting `err`:
     * without a score function a TypeError and no change; otherwise the
     * scores of the current profiles are written in place into the stored
     * array (or become a new one) and exactly one copy is appended to the
     * history, or nothing changes when the shapes cannot be broadcast.
     */
    twostate predicate Recomputed(itemAttributes: Matrix, new err: Option<Error>)
      reads this, scores
    {
      if old(scoreFn).None? then
        err == Some(TypeError("score function must be callable"))
        && scores == old(scores) && ScoresValue() == old(ScoresValue()) && history == old(history)
      else
        var outcome := Recompute(old(ShapeOf()), old(scoreFn).value(profiles, itemAttributes));
        match outcome
        case Failure(e) =>
          err == Some(e) && scores == old(scores) && ScoresValue() == old(ScoresValue()) && history == old(history)
        case Success(m) =>
          && err.None?
          && (old(scores) != null ==> scores == old(scores))
          && (old(scores) == null ==> scores != null && fresh(scores))
          && ScoresValue() == Some(m)
          && history == old(history) + [Some(m)]
    }

    constructor (profiles: Matrix, initialScores: Option<Matrix>, interact: Option<InteractFn>,
                 numUsers: Option<nat>, drift: real)
      ensures this.profiles == profiles && ScoresValue() == initialScores
      ensures scores != null ==> fresh(scores)
      ensures interactWithItems == interact && this.numUsers == numUsers && this.drift == drift
      ensures scoreFn.None? && history == [initialScores]
    {
      var a: array2?<int> := null;
      if initialScores.Some? {
        a := FromMatrix(initialScores.value);
      }
      this.profiles := profiles;
      scores := a;
      interactWithItems := interact;
      this.drift := drift;
      scoreFn := None;
      this.numUsers := numUsers;
      history := [initialScores];
    }

    /** `set_score_function`: a non-callable is refused and the old function kept. */
    method SetScoreFunction(fn: CallableArg<ScoreFn>) returns (err: Option<Error>)
      modifies this`scoreFn
      ensures fn.Callable? ==> err.None? && scoreFn == Some(fn.f)
      ensures !fn.Callable? ==> err == Some(TypeError("score function must be callable")) && scoreFn == old(scoreFn)
    {
      if !fn.Callable? {
        return Some(TypeError("score function must be callable"));
      }
      scoreFn := Some(fn.f);
      return None;
    }

    /** `store_state`: appends a copy of the current score matrix to the history. */
    method StoreState()
      modifies this`history
      ensures history == old(history) + [ScoresValue()]
    {
      history := history + [ScoresValue()];
    }

    method ComputeUserScores(itemAttributes: Matrix) returns (err: Option<Error>)
      modifies this`scores, this`history, scores
      ensures Recomputed(itemAttributes, err)
      ensures history[..|old(history)|] == old(history)
    {
      if scoreFn.None? {
        return Some(TypeError("score function must be callable"));
      }
      var result := scoreFn.value(profiles, itemAttributes);
      var outcome := Recompute(ShapeOf(), result);
      if outcome.Failure? {
        return Some(outcome.error);
      }
      if scores == null {
        scores := FromMatrix(result);
      } else {
        Overwrite(scores, outcome.value);
      }
      StoreState();
      return None;
    }

    /**
     * `score_new_items`: the scores of the new items are placed as new
     * columns after the existing ones, in a new array, and one copy is
     * appended to the history.
     */
    method ScoreNewItems(newItems: Matrix) returns (err: Option<Error>)
      modifies this`scores, this`history
      ensures old(scoreFn).None? ==> err.Some? && err.value.TypeError? && Untouched()
      ensures old(scoreFn).Some? && old(scores) == null ==> err.Some? && err.value.ValueError? && Untouched()
      ensures old(scoreFn).Some? && old(scores) != null ==>
        var added := old(scoreFn).value(profiles, newItems);
        if |added| != old(scores).Length0 then
          err.Some? && err.value.ValueError? && Untouched()
        else
          && err.None?
          && scores != null && fresh(scores)
          && scores.Length0 == old(scores).Length0
          && scores.Length1 == old(scores).Length1 + Cols(added)
          && ScoresValue() == Some(HStack(old(ScoresValue()).value, added))
          && history == old(history) + [ScoresValue()]
    {
      if scoreFn.None? {
        return Some(TypeError("'NoneType' object is not callable"));
      }
      var added := scoreFn.value(profiles, newItems);
      if scores == null {
        return Some(ValueError("all the input arrays must have same number of dimensions"));
      }
      if |added| != scores.Length0 {
        return Some(ValueError("all the input array dimensions except for the concatenation axis must match exactly"));
      }
      var stacked := HStack(ToMatrix(scores), added);
      var a := FromMatrix(stacked);
      if |added| == 0 {
        a := new int[0, scores.Length1 + Cols(added)];
        assert ToMatrix(a) == [];
      }
      scores := a;
      StoreState();
      return None;
    }

    /** `get_actual_user_scores`; its contract is that of ScoresQuery. */
    function GetActualUserScores(user: Option<int>): (r: Result<ScoresView>)
      reads this, scores
      ensures user.None? ==> r == Success(Whole(ScoresValue()))
      ensures user.Some? ==> (r.Success? <==> scores != null && ValidIndex(scores.Length0, user.value))
      ensures user.Some? && r.Success? ==>
        r.value == UserRow(ScoresValue().value[Resolve(scores.Length0, user.value)])
      ensures user.Some? && r.Success? ==>
        forall j :: 0 <= j < scores.Length1 ==> r.value.row[j] == scores[Resolve(scores.Length0, user.value), j]
    {
      ScoresQuery(ScoresValue(), user)
    }

    /** `update_profiles`: profiles drift towards the attributes of the consumed items. */
    method UpdateProfiles(consumed: Matrix, slerp: SlerpFn)
      modifies this`profiles
      ensures profiles == slerp(old(profiles), consumed, drift)
    {
      profiles := slerp(profiles, consumed, drift);
    }

    /**
     * `get_user_feedback`: an installed behaviour function decides alone;
     * otherwise shown items are required, each user takes a best-scoring
     * shown item, and with positive drift the item attributes are required,
     * the profiles drift and the scores are recomputed.
     */
    method GetUserFeedback(args: FeedbackArgs, slerp: SlerpFn) returns (r: Result<seq<int>>)
      modifies this`profiles, this`scores, this`history, scores
      ensures old(interactWithItems).Some? ==> r == Success(old(interactWithItems).value(args)) && Untouched()
      ensures old(interactWithItems).None? && args.itemsShown.None? ==>
        r == Failure(ValueError("Items can't be None")) && Untouched()
      ensures old(interactWithItems).None? && args.itemsShown.Some? ==>
        var chosen := DefaultFeedback(old(ScoresValue()), args.itemsShown.value, numUsers);
        && (chosen.Failure? || drift <= 0.0 ==> r == chosen && Untouched())
        && (chosen.Success? && drift > 0.0 && args.itemAttributes.None? ==>
              r == Failure(ValueError("Item attributes can't be None if user preferences are dynamic")) && Untouched())
        && (chosen.Success? && drift > 0.0 && args.itemAttributes.Some? ==>
              var consumed := ConsumedAttributes(args.itemAttributes.value, chosen.value);
              && (consumed.Failure? ==> r == Failure(consumed.error) && Untouched())
              && (consumed.Success? ==>
                    && profiles == slerp(old(profiles), consumed.value, drift)
                    && Recomputed(args.itemAttributes.value, if r.Failure? then Some(r.error) else None)
                    && (r.Success? ==> r == chosen)))
      ensures r.Success? && old(interactWithItems).None? ==>
        var items := args.itemsShown.value;
        |r.value| == |items| && forall u :: 0 <= u < |items| ==>
          IsBestShown(old(ScoresValue()).value[u], items[u], r.value[u])
    {
      if interactWithItems.Some? {
        return Success(interactWithItems.value(args));
      }
      if args.itemsShown.None? {
        return Failure(ValueError("Items can't be None"));
      }
      var chosen := DefaultFeedback(ScoresValue(), args.itemsShown.value, numUsers);
      if chosen.Failure? || drift <= 0.0 {
        return chosen;
      }
      if args.itemAttributes.None? {
        return Failure(ValueError("Item attributes can't be None if user preferences are dynamic"));
      }
      var consumed := ConsumedAttributes(args.itemAttributes.value, chosen.value);
      if consumed.Failure? {
        return Failure(consumed.error);
      }
      UpdateProfiles(consumed.value, slerp);
      var err := ComputeUserScores(args.itemAttributes.value);
      if err.Some? {
        return Failure(err.value);
      }
      return chosen;
    }
  }

  /**
   * `Users(...)`: the argument checks, then the profiles (given, or drawn
   * until none of their rows is all zero), then the object.
   */
  method NewUsers(profiles: ArrayArg, scores: ArrayArg, interact: CallableArg<InteractFn>, size: SizeArg,
                  numUsers: Option<nat>, drift: real, draws: seq<Matrix>) returns (r: Result<Users>)
    requires size.SizeTuple? ==> DrawsOfShape(draws, size.rows, size.cols)
    ensures CheckInit(profiles, scores, interact, size).Some? ==> r == Failure(CheckInit(profiles, scores, interact, size).value)
    ensures CheckInit(profiles, scores, interact, size).None? && profiles.ArrayLike? ==>
      r.Success? && r.value.profiles == profiles.m
    ensures r.Success? && profiles.Absent? ==>
      && size.SizeTuple?
      && IsShape(r.value.profiles, size.rows, size.cols)
      && exists k :: 0 <= k < |draws| && r.value.profiles == draws[k]
           && !HasZeroRow(draws[k], size.cols)
           && forall j :: 0 <= j < k ==> HasZeroRow(draws[j], size.cols)
    ensures CheckInit(profiles, scores, interact, size).None? && profiles.Absent? ==>
      (r.Success? <==> exists k :: 0 <= k < |draws| && !HasZeroRow(draws[k], size.cols))
    ensures CheckInit(profiles, scores, interact, size).None? && r.Failure? ==> r.error == GeneratorExhausted
    ensures r.Success? ==>
      && fresh(r.value) && r.value.scoreFn.None? && r.value.drift == drift
      && r.value.numUsers == numUsers
      && r.value.interactWithItems == (if interact.Callable? then Some(interact.f) else None)
      && r.value.ScoresValue() == (if scores.ArrayLike? then Some(scores.m) else None)
      && r.value.history == [r.value.ScoresValue()]
  {
    var check := CheckInit(profiles, scores, interact, size);
    if check.Some? {
      return Failure(check.value);
    }
    var p: Matrix;
    if profiles.ArrayLike? {
      p := profiles.m;
    } else {
      var drawn := GenerateProfiles(size.cols, draws);
      if drawn.Failure? {
        return Failure(drawn.error);
      }
      p := drawn.value;
    }
    var u := new Users(p, if scores.ArrayLike? then Some(scores.m) else None,
                       if interact.Callable? then Some(interact.f) else None, numUsers, drift);
    return Success(u);
  }
}
