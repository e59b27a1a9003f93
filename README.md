# Tabular Q-learning recommender, modelled in Dafny

The system is a small recommender. A table of Q-values has one row per user
and one column per item. Training runs epoch after epoch, and each epoch
visits every user once. For each visit the trainer picks an item, at random
(explore) or as the arg-max of the user's row (exploit). It looks up the
user's rating of that item and applies a temporal-difference update to that
one cell, in place. Afterwards a recommendation is read off a user's row as
its arg-max.

The model has four modules:

- `Labels` (labels.dfy): the label lookup a label-indexed table performs
  (`IndexOf`, first occurrence) and pandas' order-preserving
  `Series.unique()` (`Unique`).
- `Ratings` (ratings.dfy): the observations (`user_id`, `item_id`, `rating`
  rows), `get_rating`, and the user and item universes built from them.
- `QTable` (qtable.dfy): the table as a value (`Table`), the zero table
  `initialize_q_table` builds, row maximum and first arg-max, the update
  rule of `update_q_value`, and `recommend_item`. It also holds the class
  `MutableTable`: the table as the trainer owns it, an `array2<real>`
  updated in place, whose ghost `contents` is its meaning as a `Table`.
- `Training` (training.dfy): the explore/exploit choice, and `q_learning`.
  `q_learning` is a method whose loops work on the `MutableTable`. Each
  loop is proved against `RunFor`, a step-by-step reference definition of
  what training does to the table. The methods follow the loop nest:
  - `VisitUser` is the body of the inner loop;
  - `TrainPass` is the inner loop over users;
  - `TrainEpochs` is the outer loop over epochs;
  - `QLearning` builds the universes and runs both loops.

How the source's runtime behaviour is represented:

- **Random numbers** are a parameter `draws: nat -> Draw`, and step n of
  training uses `draws(n)`. Its field `u` stands for `random.uniform(0, 1)`:
  the step explores when `u < exploration_rate`. Its field `pick` selects
  element `pick % n` of an n-element universe, standing for
  `random.choice`.
- **Errors the source raises** become values:
  - `KeyError`: `.loc` with a user or item that is not a label of the table;
  - `EmptyRow`: `idxmax` of a row with no columns, a ValueError in pandas;
  - `EmptyChoice`: `random.choice` on an empty universe, an IndexError.
- **A failing step**: an exception in the source ends `q_learning`, and
  the updates already made stay in the table. The model returns
  `Fail(error)` with that table.

`q_learning` validates none of its configuration: it does not check that
the exploration rate lies in [0, 1], that epochs is positive or that the
universes are non-empty. The model accepts any configuration too. With no
observations both universes are empty and `q_learning` makes no step. On a
table with no item columns, an exploit step for a user the table labels
fails with `EmptyRow`; for a user it does not label, it fails with
`KeyError` first. An explore step on such a table fails with `KeyError`
from the update. `EmptyChoice` arises
only when `Step` is given an empty explored universe, which `q_learning`
never does.

## Model

| member | source | states |
|---|---|---|
| Labels.IndexOf | src/user_item_q_learning.py:42 | the lookup finds nothing exactly when the label is absent; otherwise it returns a position that holds the label |
| Labels.IndexOfFirst | src/user_item_q_learning.py:42 | no occurrence of the label comes before the position the lookup returns |
| Labels.IndexOfUnique | src/user_item_q_learning.py:42 | any position that holds the label, with no earlier occurrence, is the one the lookup returns |
| Labels.IndexOfExtend | src/user_item_q_learning.py:20-21 | appending labels does not move the first occurrence of a label already present |
| Labels.Unique | src/user_item_q_learning.py:20-21 | `unique()` keeps exactly the labels of the column |
| Labels.UniqueOrder | src/user_item_q_learning.py:20-21 | `unique()` lists each label once; a label listed before another first appears earlier in the column |
| Ratings.GetRating | src/user_item_q_learning.py:35-38 | `get_rating` as a scan of the observations in frame order; its meaning is stated by GetRatingFirstMatch (first match, else 0) and GetRatingNonNegative |
| Ratings.GetRatingFirstMatch | src/user_item_q_learning.py:35-38 | `get_rating` is 0 when no observation has that user and item; otherwise it is the rating of the first matching observation, whatever follows it |
| Ratings.GetRatingNonNegative | src/user_item_q_learning.py:37-38 | with non-negative ratings the reward is non-negative |
| Ratings.Users | src/user_item_q_learning.py:20 | `ratings_df['user_id'].unique()`; Unique and UniqueOrder give its meaning (exactly the user ids, once each, in first-appearance order) |
| Ratings.Items | src/user_item_q_learning.py:21 | `ratings_df['item_id'].unique()`; Unique and UniqueOrder give its meaning (exactly the item ids, once each, in first-appearance order) |
| Ratings.UniversesEmptyTogether | src/user_item_q_learning.py:20-21 | the user universe and the item universe are empty exactly when there are no observations |
| QTable.InitialTable | src/user_item_q_learning.py:14-16 | one row per user and one column per item, labelled by the given users and items, every cell 0 |
| QTable.InitialTableNonNegative | src/user_item_q_learning.py:16 | the initial table is non-negative |
| QTable.RowMax | src/user_item_q_learning.py:43 | the row maximum is an element of the row and at least every element |
| QTable.ArgMax | src/user_item_q_learning.py:49 | the position returned holds a value at least every other value of the row, and every earlier column is strictly smaller (first index among ties) |
| QTable.FirstMaxUnique | src/user_item_q_learning.py:49 | a row has exactly one first maximal column: any column that is first maximal is the arg-max, and it holds the row maximum |
| QTable.NewQ | src/user_item_q_learning.py:44 | the value `update_q_value` writes; NewQBlend states it as the convex blend and NewQNonNegative bounds it |
| QTable.NewQBlend | src/user_item_q_learning.py:44 | the update equals (1 - lr) * current + lr * (rating + df * max_future); with lr = 1 it is exactly rating + df * max_future |
| QTable.NewQNonNegative | src/user_item_q_learning.py:44 | non-negative current, rating and future maximum, with 0 < lr <= 1 and df >= 0, give a non-negative new value |
| QTable.SetCell | src/user_item_q_learning.py:45 | writing a cell keeps the shape and labels, stores the value in that cell and leaves every other cell as it was |
| QTable.Update | src/user_item_q_learning.py:40-45 | `update_q_value` fails with KeyError exactly when the user or the item is not a label of the table; a success keeps the shape and labels |
| QTable.UpdateWritesOneCell | src/user_item_q_learning.py:42-45 | a successful update writes NewQ(old cell, rating, lr, df, old row maximum) into cell (user, item), the maximum taken before the write; no other cell changes |
| QTable.UpdateFullRate | src/user_item_q_learning.py:43-44 | with learning rate 1 the cell becomes rating + df * (old row maximum) |
| QTable.UpdateNonNegative | src/user_item_q_learning.py:42-45 | an update keeps a non-negative table non-negative when the rating is non-negative, 0 < lr <= 1 and df >= 0 |
| QTable.RecommendItem | src/user_item_q_learning.py:47-49 | KeyError for an unknown user, checked first, and EmptyRow for a known user on a table without items; it succeeds exactly otherwise, with an item of the table |
| QTable.RecommendItemIsFirstMax | src/user_item_q_learning.py:49 | the recommendation is the item of the first column of the user's row that holds the row maximum |
| QTable.ZeroTableRecommendsFirstItem | src/user_item_q_learning.py:49 | on the freshly initialised table every known user is recommended the first item |
| QTable.MutableTable.Row | src/user_item_q_learning.py:43 | the row read out of the array is the row of the table's contents |
| QTable.MutableTable.Recommend | src/user_item_q_learning.py:47-49 | `recommend_item` read from the array gives what RecommendItem gives for the table's contents: KeyError, EmptyRow or the first arg-max item |
| QTable.MutableTable.constructor | src/user_item_q_learning.py:14-16 | a fresh array whose contents are the initial table over the given labels |
| QTable.MutableTable.UpdateQValue | src/user_item_q_learning.py:40-45 | the in-place update leaves the contents `Update` describes and reports Pass, or reports its KeyError with the table unchanged |
| Training.Schedule | src/user_item_q_learning.py:23-24 | the users in the order the loop nest visits them; ScheduleLength and ScheduleAt give its length and its n-th entry |
| Training.ScheduleLength | src/user_item_q_learning.py:23-24 | the loop nest visits epochs * \|users\| users |
| Training.ScheduleAt | src/user_item_q_learning.py:23-24 | visit n of the loop nest is of user number n mod \|users\| of the universe |
| Training.ChooseItem | src/user_item_q_learning.py:25-28 | explore yields an element of the explored universe, or EmptyChoice exactly when that is empty; exploit yields an item of the table, and succeeds exactly when the user is a row and the table has items; otherwise it fails with KeyError for an unknown user, checked first, and with EmptyRow for a known user on a table without items |
| Training.ChooseItemExploitIsFirstMax | src/user_item_q_learning.py:28 | on exploit the chosen item is the label of the first column of the user's row that holds the row maximum, as `idxmax` |
| Training.Step | src/user_item_q_learning.py:25-31 | one visit keeps the table's shape and labels |
| Training.RunFor | src/user_item_q_learning.py:23-31 | any number of visits keeps the table's shape and labels |
| Training.Advance | src/user_item_q_learning.py:24-31 | the progress after visit k keeps the table's shape and labels; RunForNext states it as one Step on the progress before it, or that progress after a failure |
| Training.StepAt | src/user_item_q_learning.py:25-31 | visit k taken on the progress before it keeps the table's shape and labels; RunForNext states it as Step for user `steps[k]` with `draws(k)` |
| Training.Run | src/user_item_q_learning.py:23-31 | training over the whole schedule, RunFor for all its visits; QLearning, TrainingUpdateCount, ZeroEpochsUnchanged and TrainingFromZeroNonNegative state what it does |
| Training.RunForNext | src/user_item_q_learning.py:24-31 | visit k is one more step on the progress before it, unless training has already failed |
| Training.RunForPrefix | src/user_item_q_learning.py:23-31 | the first n visits depend only on the first n users visited |
| Training.RunAbsorbsFailure | src/user_item_q_learning.py:30-31 | once a step has failed, later steps change nothing |
| Training.ScheduleAbsorbsFailure | src/user_item_q_learning.py:23-31 | a failure in the first e epochs is the outcome of training for any larger epoch count |
| Training.EmptyDataNoSteps | src/user_item_q_learning.py:20-24 | with no observations both universes are empty and the loop nest visits no user |
| Training.ZeroEpochsUnchanged | src/user_item_q_learning.py:23 | with epochs = 0 the table is returned unchanged, with no update made |
| Training.StepNonNegative | src/user_item_q_learning.py:30-31 | one visit keeps a non-negative table non-negative when ratings are non-negative, 0 < lr <= 1 and df >= 0 |
| Training.RunNonNegative | src/user_item_q_learning.py:23-31 | any number of visits keeps a non-negative table non-negative under the same conditions |
| Training.TrainingFromZeroNonNegative | src/user_item_q_learning.py:18-33 | training from the zero table over the data's universes leaves every cell non-negative under those conditions |
| Training.StepCoveredSucceeds | src/user_item_q_learning.py:25-31 | a visit to a user the table labels, exploring over items the table labels, succeeds and updates a cell of that user's row |
| Training.RunCoveredSucceeds | src/user_item_q_learning.py:23-31 | on a table that labels every visited user and explored item no step fails, and visit k updates a cell of the row of the k-th user visited |
| Training.TrainingUpdateCount | src/user_item_q_learning.py:20-31 | on a table covering the data, `q_learning` makes exactly epochs * \|users\| updates, update n on user number n mod \|users\| in first-appearance order |
| Training.VisitUser | src/user_item_q_learning.py:25-31 | the loop body does to the array what `Step` does to the table value |
| Training.VisitStep | src/user_item_q_learning.py:24-31 | visit n leaves the table and status of the first n + 1 steps; after a failure, those of the whole run |
| Training.TrainPass | src/user_item_q_learning.py:24-31 | the inner loop over users leaves the table and status of the reference run up to the pass's end |
| Training.TrainEpochs | src/user_item_q_learning.py:23-31 | the outer loop leaves the table and status of the reference run over the whole schedule |
| Training.QLearning | src/user_item_q_learning.py:18-33 | `q_learning` leaves the table and status that the reference run gives over the data's universes |

## Left out

- `create_ratings_dataframe` and `main`: the sample data, printing and the unused feedback dictionary are demonstration code.
- The pandas and numpy machinery: frames become sequences of observations, the table an `array2<real>` with label lookup by first occurrence.
- Duplicate labels: the model resolves a duplicated label to its first row or column, whereas `.loc` would return several; `unique()` never produces duplicates.
- The `random` module: its draws are the `draws` parameter, and neither the generator nor the distribution of choices is modelled.
- Floating point: Q-values and ratings are exact reals, so rounding, NaN and infinities are not modelled; `idxmax` skipping NaN is therefore absent.
- Integer ratings: ratings are reals, so `get_rating`'s integer result and its integer default 0 are both the real value.
- Negative epoch counts: `epochs` is a natural number; a negative count, for which Python's `range` is empty, behaves as 0.
- The return value of `q_learning`: it is the same object as the table argument, so the model updates the table in place and returns only the status.
- Convergence and the statistical claims about what training learns are not modelled; only what each step does is.
