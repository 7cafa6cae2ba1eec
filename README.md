# User behaviour and popularity counting in a recommender-system simulation

This project models, in Dafny, the user side of a simulation in which a
recommender and a population of users interact over discrete timesteps, together with
the bookkeeping of a popularity-based recommender.

- **Users (newer version, `trecs/components/users.py`)** holds hidden user
  profiles and an actual user x item score matrix. It also keeps a history of
  copies of that matrix. The model checks the constructor's arguments and
  regenerates random profiles until no profile is all zero. It installs a
  score function and recomputes the scores through it; the recomputed scores
  are written in place into the stored matrix. It appends the scores of new
  items as new columns, answers score queries, and produces one interaction
  per user. By default each user picks, among the items shown to them, one
  whose actual score is largest. Optionally the profiles drift towards the
  consumed items, after which the scores are recomputed.
- **Users (earlier version, `rec/users.py`)** has the same argument checks,
  a `compute_user_scores` that rebinds the scores to a supplied function's
  result, the same score query and the same choice rule. It has no drift and
  no history.
- **PopularityRecommender (`src/popularity.py`)** starts with all user
  profiles equal to 1 and all item counts equal to 0. Each timestep splits
  its candidate slots between new and recommended items (startup, randomised
  or fixed mode) and adds the timestep's interaction matrix into the item
  counts.

Modules:

- `Common`: Python's exception kinds as an `Error` datatype, plus `Option` and `Result`.
- `Matrices`: integer matrices as rectangular sequences of rows. It models
  numpy's negative indices, broadcasting, `hstack` and `add`.
- `Validation`: the argument kinds a caller may pass and the checks both
  constructors share.
- `Choice`: the choice rule and the score query that both `Users` versions share.
- `TrecsUsers`: the newer `Users` class. Its score matrix is an `array2`
  that `compute_user_scores` overwrites in place. Its history is a sequence
  of value copies, so an overwrite cannot reach the entries that `store_state`
  appended. The initial entry is also a value here, but whether the source
  copies it depends on `BaseComponent`, which is not part of this model.
- `RecUsers`: the earlier `Users` class, whose fields are values that get rebound.
- `Popularity`: the slot split, the accumulator class and a lemma about accumulated counts.

Scores and counts are integers. The score function, the train function, the
spherical interpolation used for drift, the random generator, the
superclass's `recommend`, and the interaction matrix that `interact` obtains
from `measure_equilibrium` (which passes the call on to `Measurements`) are
all parameters of the model.

## Model

| member | source | states |
|---|---|---|
| Validation.CheckUserArgs | rec/users.py:57-65 | The earlier constructor's checks, shared by the newer one. No error exactly when the profiles are absent or array-like, the behaviour function is absent or callable, and a size tuple is given whenever the profiles are absent. A ValueError occurs exactly when both profiles and size are absent and the earlier checks pass. Every other failure is a TypeError. |
| TrecsUsers.CheckInit | trecs/components/users.py:151-162 | The newer constructor's checks: the shared ones, then a TypeError for initial scores that are neither list nor array. It states the same iff conditions, extended by the scores check. |
| TrecsUsers.GenerateProfiles | trecs/components/users.py:163-167 | The regeneration loop returns a draw with no all-zero row. Every earlier draw had one. If every draw has an all-zero row, it reports that the generator is exhausted. |
| TrecsUsers.NewUsers | trecs/components/users.py:151-177 | A failed check is returned before anything is built. Otherwise given profiles are kept. Without them, it succeeds exactly when some draw has no all-zero row; the profiles are then the first such draw, of the requested shape, and the only other failure is GeneratorExhausted. The behaviour function, drift, user count and initial scores are stored, no score function is set, and the history holds the initial scores. |
| TrecsUsers.Users.constructor | trecs/components/users.py:168-177 | Fields hold the given profiles, initial scores, behaviour function, user count and drift. No score function is set, and the history is the initial scores alone. |
| TrecsUsers.Users.SetScoreFunction | trecs/components/users.py:200-202 | A callable is installed. Anything else gives a TypeError and keeps the previous score function. |
| TrecsUsers.Recompute | trecs/components/users.py:222-225 | With no stored matrix the new scores are the score function's result. With a stored matrix, success holds exactly when the result broadcasts to the stored shape. The value is then the result broadcast into the stored shape, and a result of that shape is taken unchanged. Any failure is a ValueError. |
| TrecsUsers.Overwrite | trecs/components/users.py:225 | The in-place slice assignment leaves the array holding exactly the source matrix. |
| TrecsUsers.Users.StoreState | trecs/components/users.py:349-351 | The history grows by exactly one entry, a copy of the current scores. No other field changes. |
| TrecsUsers.Users.ComputeUserScores | trecs/components/users.py:217-227 | Without a score function: a TypeError and no change. Otherwise the scores become `Recompute` of the score function's result, written into the same array when one exists. Exactly one copy is appended to the history, and earlier history entries are unchanged. A broadcast failure changes nothing. |
| TrecsUsers.Users.ScoreNewItems | trecs/components/users.py:244-248 | The row count is kept and the column count grows by the number of new score columns. The result is the old matrix with the new block stacked after it, and one copy is appended to the history. A missing score function or score matrix, or a row mismatch, fails with no change. |
| TrecsUsers.ConsumedAttributes | trecs/components/users.py:325 | Row u is the attribute column of the item user u chose. It fails with an IndexError exactly when a chosen item is not a column of the attributes. |
| TrecsUsers.Users.UpdateProfiles | trecs/components/users.py:345-347 | The profiles become the interpolation of the old profiles towards the consumed attributes by `drift`. |
| TrecsUsers.Users.GetUserFeedback | trecs/components/users.py:306-329 | With a behaviour function installed, its result is returned and nothing changes. Missing shown items give a ValueError. Otherwise each user gets a shown item with maximal score. With `drift <= 0`, or on a selection error, nothing changes. With positive drift, missing item attributes give a ValueError before any profile changes. Otherwise the profiles drift and the scores are recomputed, appending one history entry. |
| Choice.ShownScores | trecs/components/users.py:313 | Entry c is the user's score for the c-th shown item, under numpy's negative-index rule. |
| Choice.LastArgMax | trecs/components/users.py:314 | The position taken from `argsort()` is in range, and no value is larger than the value at that position. |
| Choice.ChooseItem | trecs/components/users.py:314-315 | The chosen item is in the user's row of shown items, and no shown item scores higher. |
| Choice.BestShownScoresEqual | trecs/components/users.py:314-315 | Any two items that satisfy the choice contract score the same, so the choice is fixed up to ties. |
| Choice.Feedback | rec/users.py:112-115 | Succeeds exactly when the user vector has one entry per row of shown items, scores exist, every user row and shown item lies inside the score matrix, and rows are not empty. It then returns one item per user, a best-scoring shown one. A reshape mismatch is a ValueError, and missing scores are a TypeError. |
| Choice.ScoresQuery | trecs/components/users.py:272-275 | Without a user, the whole matrix (or None) is returned. With a user, it succeeds exactly when scores exist and the index is valid, and the result is that user's row, a negative index counting from the end. |
| TrecsUsers.Users.GetActualUserScores | trecs/components/users.py:250-275 | Without a user, the current score matrix (or None). With a user, it succeeds exactly when an array is stored and the index is a valid row, and returns that row of the array, element by element. |
| TrecsUsers.DefaultFeedback | trecs/components/users.py:174-175 | Without `num_users` the user vector does not exist and the default rule fails with an AttributeError. Otherwise it succeeds exactly when the shared rule does, with one best-scoring shown item per user and the user count equal to the number of shown rows. |
| RecUsers.Users.GetActualUserScores | rec/users.py:94-97 | Without a user, the stored scores (or None). With a user, it succeeds exactly when scores exist and the index is valid (a TypeError when there are no scores), and returns that user's row, counting a negative user from the end. |
| Choice.RowQueryIsRowOfWhole | rec/users.py:94-97 | The row returned for user u is row u of the whole matrix; a negative u counts from the end. |
| RecUsers.NewUsers | rec/users.py:57-70 | Fails exactly when a check fails. Otherwise profiles are the given ones or the generator's draw of the requested shape, and the scores start unset. |
| RecUsers.Users.constructor | rec/users.py:68-70 | The profiles are stored and the scores are unset. |
| RecUsers.Users.ComputeUserScores | rec/users.py:75-78 | A non-callable gives a TypeError with the scores unchanged. Otherwise the scores become the function's result on the profiles. |
| RecUsers.Users.GetUserFeedback | rec/users.py:99-118 | Succeeds under the same conditions as `Choice.Feedback`. It returns one item per row of `items`, each a best-scoring shown item. As a function of the state, it changes neither profiles nor scores. |
| Matrices.BroadcastTo | trecs/components/users.py:225 | The slice assignment succeeds exactly under numpy's broadcasting rule. The value has the target shape, and a source of that shape is taken unchanged. |
| Matrices.HStack | trecs/components/users.py:247 | Row i of the result is row i of the old matrix followed by row i of the new block. |
| Matrices.Add | src/popularity.py:18 | `np.add` succeeds exactly on broadcast-compatible shapes. It yields the joint shape, with entries the sums of the broadcast operands. |
| Popularity.SlotSplit | src/popularity.py:24-33 | Startup mode gives every slot to new items and none to recommendations. Randomised mode needs more than one slot; the drawn count of new items then lies in [1, slots-1], recommendations get the rest, and both are at least 1 and sum to the slot count. Fixed mode uses the configured counts unchanged. |
| Popularity.PopularityRecommender.constructor | src/popularity.py:11-12 | Every user profile is the single entry 1 (shape users x 1), and every item count is 0 (shape 1 x items). |
| Popularity.PopularityRecommender.StoreInteraction | src/popularity.py:17-18 | The counts become the broadcast sum of the old counts and the interaction matrix. An interaction matrix of the counts' shape keeps that shape and adds entrywise. The user profiles are untouched. |
| Popularity.PopularityRecommender.Interact | src/popularity.py:23-39 | A failed split is returned. Otherwise an unset recommendation count is a TypeError, and a positive count with a recommendation matrix of another width is an AssertionError. When neither applies, the call succeeds exactly when the counts can be added to the interaction matrix; it then returns the split and the recommendations, requested exactly when not in startup mode, and the counts grow by the interaction matrix. Nothing changes on failure. |
| Popularity.AccumulatedCounts | src/popularity.py:11-18 | From the all-zero start, after any number of timesteps with one-row interaction matrices, the count row keeps its shape. Each item's count is the total of that item's interactions. |

Notes on the modelled behaviour:

- The choice rule's contract does not fix a tie-break, because numpy's
  default `argsort` is not stable. The implementation takes the last maximum.
- The earlier `get_user_feedback` indexes both the scores and `items` through
  `user_vector`. Its docstring requires `user_vector[u] == u`, and
  `RecUsers.Users.GetUserFeedback` takes that as its precondition. The newer
  version builds that vector itself.
- The message for initially given scores of the wrong type names
  `actual_user_profiles`, as in the source (trecs/components/users.py:162).
- With a fixed `seed`, every pass of the regeneration loop recreates the
  generator with the same seed. If `trecs.random.Generator` (not part of this
  model) returns the same draw for the same seed, it draws the same matrix again.

## Left out

- TrecsUsers.GenerateProfiles: receives the generator's successive outputs as a finite sequence and reports `GeneratorExhausted` where the source would keep drawing without end. The normal distribution itself is not modelled.
- TrecsUsers.Users.UpdateProfiles: spherical interpolation (`slerp` from `trecs.matrix_ops`) is a parameter. It is floating-point code that is not part of this model. `contains_row`, from the same module, is taken to mean "some row equals the given row".
- RecUsers.NewUsers: the single random draw is a parameter of the requested shape, not a sample from a distribution.
- Score and train functions are parameters, and scores are integers rather than floats. The train function's extra arguments are taken to be fixed inside the function value.
- Choice.ScoresQuery: only an integer user or None is modelled. Lists or arrays of users (fancy indexing) are left out. The source returns the live score array, or a view of one row, so a later in-place write by `compute_user_scores` changes what the caller holds; the model returns values and does not capture that aliasing.
- TrecsUsers.Users.ComputeUserScores: when no matrix is stored yet, the model allocates a fresh array. The source binds the score function's own array, so aliasing with the caller is not modelled. Broadcasting from one-dimensional or scalar results is left out, because every matrix here is two-dimensional.
- TrecsUsers.Users.constructor: the history's initial entry stands for what the base component records at construction. `BaseComponent` is not part of this model, and the entry follows the documented lifecycle (one entry for the initial value); whether the source copies it is not captured.
- TrecsUsers.Users.constructor: the source keeps the caller's own initial-scores array, so the later in-place write also changes the caller's array. The model copies the initial scores into a fresh array and does not capture that aliasing.
- TrecsUsers.Users.constructor: initial scores given as a Python list are kept as a list in the source, so the slice write in `compute_user_scores` and the array indexing in `get_user_feedback` then fail with a TypeError. The model treats such a list like an array and does not model those failures.
- TrecsUsers.Users.GetUserFeedback: positional and other keyword arguments reach only the installed behaviour function. The model passes that function the two keyword arguments the default rule reads.
- Matrices: a matrix with no rows does not record its number of columns, so shape checks on such matrices treat the column count as zero.
- A size that is a tuple of other than two entries is left out.
- Verbose logging in both `Users` classes (`log`, `is_verbose`) is left out.
- The component wrappers `PredictedScores`, `PredictedUserProfiles` and `ActualUserProfiles` are left out; the `Component` base they wrap is not part of this model.
- The superclass `Recommender` (`recommend`, the superclass `interact`, `train`, `run`, `startup_and_train`) and `Measurements` (`measure_equilibrium`, `get_delta`) are not part of this model. The methods of `PopularityRecommender` that only delegate to them are left out, as are the constructor arguments it only passes on (`num_startup_iter`, `user_preference`). The constructor is taken to store the slot configuration that `interact` reads.
- Popularity.PopularityRecommender.Interact: in fixed mode with no configured recommendation count, the model fails with the TypeError of the comparison on line 35. It assumes the superclass's `recommend(k=None)` returns.
