# Student performance prediction engine — a Dafny model

This project models the in-browser prediction engine of the student
performance tracker (`frontend/assets/script.js`). The engine keeps a store of
students and faculty. Each student has per-semester records with optional
marks: two mid-semester marks, an end-semester mark and a final grade (CGPA).
The engine trains two small linear-regression models from that store when it
starts: one predicts the final grade and one predicts the end-semester mark.

When a student's marks for a semester are submitted, the engine upserts the
record and predicts:
- the end-semester mark, while it is still missing;
- the final grade, which it writes into the record once, when the end-semester
  mark is in;
- a next-semester grade.

Two read-only views are also modelled: a student's performance history and a
faculty member's average over their students.

Modules:

- `Wrappers`: `Option` and `Result`.
- `JsNumber`: the JavaScript number idioms the engine relies on.
  - `x || d`, in which 0 counts as absent.
  - `toFixed(2)` as exact decimal rounding (`Round2`).
  - `Math.min`/`Math.max` clamping.
- `Store`: records, students and faculty as datatypes.
  - The `Array.prototype.find` lookups.
  - The upsert of a semester's marks, as a function with its specification lemma.
- `Regression`: the linear-regression arithmetic, over `real`.
  - Feature scaling and prediction.
  - Batch gradient descent and training.
  - Each loop is an imperative method proved equal to a recursive specification function.
- `Training`: the two training-set builders and start-up pre-training into the model registry.
- `Prediction`: `saveStudentMarksAndPredict`.
  - `Submit` states the whole call as a pure function of the store, the registry and the request.
  - The class `Engine` holds the store (`DBdata`) and the two model slots.
  - `Engine.SaveStudentMarksAndPredict` performs the call step by step on the store.
  - Its contract ties the result, the new store and the saves to `Submit`.
  - The write-once and idempotence properties are lemmas about `Submit`.
- `Queries`: `getStudentPerformance`, with a stable sort by semester, and `computeFacultyAverages`.

How the model represents the engine:

- A number that may be `null` is an `Option<real>`.
- A cumulative GPA that is not a number is `None`.
- Every `DB.save` appends a snapshot of the student list to the ghost log `Engine.saved`.
- `Math.sqrt` is a parameter `sqrt: real -> real`, fixed when the engine is built.

Where the code and its design description differ, the model follows the code:

- The training sets are in store order: students, then records as stored. They are not sorted by term.
- When a final-grade model exists, it is fed `[mid1 || 0, mid2 || 0, prior GPA]` also in the branch where the end-semester mark is present.
  - So the stored grade ignores the actual end-semester mark (`ModelGradeIgnoresEndsem`).
- Model outputs are never clamped. Only the two fallbacks are.
- The code has no separate preview operation and no validation errors beyond an unknown student. Neither is modelled.

## Model

| member | source | states |
|---|---|---|
| Store.FindFirst | frontend/assets/script.js:36-37 | `find` returns the first element whose key matches, or none when no element matches |
| Store.UpsertSpec | frontend/assets/script.js:139-148 | Afterwards the semester has a record at `UpsertIndex`. A blank record is appended at the end exactly when none existed. Only the supplied (non-null) marks overwrite `mid1`/`mid2`/`endsem`. The grade and every other record are unchanged. |
| Store.UpsertIdempotent | frontend/assets/script.js:139-148 | upserting the same marks a second time leaves the records as the first upsert left them |
| Store.UpsertFixed | frontend/assets/script.js:139-148 | upserting marks the semester's record already holds changes no record and finds that same record |
| JsNumber.Round2 | frontend/assets/script.js:176 | `Number(x.toFixed(2))` lies within 0.005 of `x` and has at most two decimals |
| JsNumber.Round2Idempotent | frontend/assets/script.js:176 | rounding an already rounded grade returns it unchanged |
| JsNumber.Round2WithinScale | frontend/assets/script.js:176 | rounding keeps a grade inside [0, 10] |
| JsNumber.Clamp | frontend/assets/script.js:166 | `Math.min(hi, Math.max(lo, x))` lies in [lo, hi] and is `x` itself when `x` is already there |
| Regression.StdDev | frontend/assets/script.js:52 | a column's standard deviation is never 0: a zero root is replaced by 1 |
| Regression.StdDevs | frontend/assets/script.js:49-53 | one non-zero sigma per column |
| Regression.ScaledMatrix | frontend/assets/script.js:54 | the standardized matrix has the shape of the input |
| Regression.FeatureScale | frontend/assets/script.js:40-56 | The nested loops return `mu` equal to the column means, `sigma` equal to the guarded standard deviations (length n, all non-zero), and `Xs` equal to the standardized matrix. |
| Regression.ConstantColumnScalesToZero | frontend/assets/script.js:44-54 | a constant column has that constant as its mean and scales to all zeros |
| Regression.ScaledColumnSumPrefix | frontend/assets/script.js:54 | a column of entries `(x - m) / s` sums to `(Σx - i*m) / s` over its first i rows |
| Regression.ScaledColumnsAreCentred | frontend/assets/script.js:40-56 | every column centred on its mean sums to 0 whatever non-zero sigma scales it, so every standardized column has mean 0 |
| Regression.PredictLinear | frontend/assets/script.js:90-97 | returns null exactly for a null model |
| Regression.PredictAtMeansIsBias | frontend/assets/script.js:90-97 | prediction is bias plus dot product on the standardized input: at the feature means it is `theta[0]` |
| Regression.AffineAtOrigin | frontend/assets/script.js:94-95 | the accumulated `theta[0] + Σ theta[j+1]*x[j]` is `theta[0]` on a zero input |
| Regression.AffineOfZeroWeights | frontend/assets/script.js:64-65 | with all weights zero every prediction is 0 |
| Regression.Descend | frontend/assets/script.js:61-77 | gradient descent keeps exactly n+1 weights through every iteration |
| Regression.ComputePredictions | frontend/assets/script.js:63-67 | the predictions are `Hypothesis(theta, row)` for every row, computed from the current weights |
| Regression.ComputeGradient | frontend/assets/script.js:68-73 | The nested loop returns `Gradient`: n+1 components, component k being the sum over all rows of the row's error times feature k, where feature 0 is the constant 1. |
| Regression.UpdateWeights | frontend/assets/script.js:74-76 | every weight is moved in place against its own gradient component by `alpha/m`, and nothing else in the array changes |
| Regression.GradientDescent | frontend/assets/script.js:58-79 | The array loop returns `Descend`: n+1 weights, all zero for 0 iterations. Each iteration is the synchronous `Step`, in which every prediction and every gradient component uses the weights from before the update. |
| Regression.GradientVanishesAtExactFit | frontend/assets/script.js:69-73 | when every prediction equals its label the gradient is zero |
| Regression.StepFixedAtExactFit | frontend/assets/script.js:74-76 | weights that fit every row exactly are a fixed point of one update |
| Regression.ZeroLabelsKeepZeroWeights | frontend/assets/script.js:58-79 | with all labels zero, the weights stay all zero for any number of iterations |
| Regression.TrainedModel | frontend/assets/script.js:81-88 | null exactly for an empty matrix; otherwise a well-formed model with one mean and one sigma per feature |
| Regression.TrainLinearModel | frontend/assets/script.js:81-88 | Scales the features, then runs gradient descent with `alpha || 0.01` and `iters || 3000`. The result is `TrainedModel`. |
| Training.RecordExamplesShape | frontend/assets/script.js:104-109 | a student contributes at most one example per record, each with three features |
| Training.ExamplesShape | frontend/assets/script.js:100-125 | every example of a training set has three features |
| Training.FeatureRowsShape | frontend/assets/script.js:106 | rows of three features form a width-3 matrix whenever there are any, one row per example |
| Training.RecordExamplesMembership | frontend/assets/script.js:104-109 | an example comes from a student's records iff some record has that label (non-null) and those features |
| Training.ExamplesMembership | frontend/assets/script.js:100-125 | The training set holds an example iff some record of some student has that non-null label. Its row is `[mid1 \|\| 0, mid2 \|\| 0, prior GPA]`, where the prior GPA is 0 when the cumulative GPA is not a number. |
| Training.RowsAppend | frontend/assets/script.js:101-110 | the rows and labels of two example lists laid end to end are the two lists' rows and labels laid end to end |
| Training.RowsStep | frontend/assets/script.js:105-108 | one more record adds its row `[mid1 \|\| 0, mid2 \|\| 0, prior GPA]` and its label exactly when the label is non-null |
| Training.AddStudent | frontend/assets/script.js:104-109 | the inner loop appends to X and y exactly the rows and labels of the student's labelled records, in stored order |
| Training.BuildTraining | frontend/assets/script.js:100-125 | The nested loops return X and y of equal length. Row i and label i are the i-th example in student-then-record order. |
| Training.Pretrained | frontend/assets/script.js:128-135 | a registry slot is filled iff its training set has at least 2 rows, and then holds a well-formed 3-feature model |
| Training.Pretrain | frontend/assets/script.js:130-135 | the start-up routine fills both slots as `Pretrained` says (alpha 0.01, 2500 iterations) |
| Prediction.FallbackCGPA | frontend/assets/script.js:164-167 | The heuristic grade lies in [0, 10]. It is total/10 when the total is in [0, 100], 0 below that and 10 above. |
| Prediction.Engine.constructor | frontend/assets/script.js:128-135 | the engine starts with the given store, an empty save log and both slots pretrained |
| Prediction.Engine.UpsertMarks | frontend/assets/script.js:139-151 | find or push the semester's record, overwrite the supplied marks in place and save once; the new store is the upserted one |
| Prediction.Engine.StoreGrade | frontend/assets/script.js:176-177 | writes the grade into that one record only, leaving every other student and record as it was, and saves the store once |
| Prediction.Engine.Report | frontend/assets/script.js:184-197 | the returned object is `Respond`: the record's marks, both predictions rounded to two decimals, and the rounded next-semester blend of the final grade |
| Prediction.DecideStoresOnce | frontend/assets/script.js:153-181 | A grade is stored iff the record has its end mark and no grade, and it is then the rounded predicted grade. A final grade is always predicted. A record already graded with its end mark returns its stored grade. |
| Prediction.Engine.Forecast | frontend/assets/script.js:153-181 | Returns the predicted end-semester mark and final grade that `Decide` specifies. The end mark comes from the model or `(mid1+mid2)*2`, and only when the end mark is missing. The grade comes from the model, the clamped heuristic, or the stored grade. |
| Prediction.Engine.SaveStudentMarksAndPredict | frontend/assets/script.js:138-198 | The call's result, the store afterwards and the sequence of saves are those of `Submit` on the old store. |
| Prediction.SubmitShape | frontend/assets/script.js:138-197 | An unknown student is an error that changes and saves nothing. Otherwise the call returns a final grade and a next-semester grade. It predicts an end mark iff the end mark is missing. The store is saved once or twice, the last save being the final store. |
| Prediction.FallbackGradeOnScale | frontend/assets/script.js:163-167 | without a final-grade model, the returned grade of a record without an end-semester mark lies in [0, 10] |
| Prediction.SubmitWritesGradeOnce | frontend/assets/script.js:168-181 | No student or record disappears and a stored grade is never overwritten. The grade write (the second save) happens only when the record has its end mark and had no grade. |
| Prediction.SubmitIdempotent | frontend/assets/script.js:138-198 | Repeating a call leaves the store unchanged and saves only once more. It returns the same end-mark and grade predictions. If the first call wrote no grade, it returns the same whole result. |
| Prediction.ZeroCumulativeGPAUsesGrade | frontend/assets/script.js:186 | a cumulative GPA of 0 or none makes the next-semester blend the rounded final grade |
| Prediction.ModelGradeIgnoresEndsem | frontend/assets/script.js:171 | with a final-grade model, the grade does not depend on the end-semester mark |
| Prediction.ScenarioColdStart | frontend/assets/script.js:138-198 | For a new record with marks 18 and 20 and no models, the call predicts an end mark of 76, a grade of 10 (clamped) and a next-semester grade of 9.74. It stores no grade. |
| Prediction.ScenarioFinalise | frontend/assets/script.js:168-181 | Marks 12, 14 and 50 give a stored grade of 7.6 and two saves. The repeated call returns 7.6, changes nothing and saves once. |
| Prediction.NextSemShiftsAfterFinalising | frontend/assets/script.js:176-187 | The finalising call blends the unrounded grade and later calls blend the stored grade, so the next-semester value moves from 7.54 to 7.55. |
| Queries.InsertSorted | frontend/assets/script.js:220 | inserting into a semester-sorted list keeps it sorted |
| Queries.InsertStable | frontend/assets/script.js:220 | inserting puts the record before the others of its semester and leaves their order |
| Queries.SortBySemSpec | frontend/assets/script.js:220 | The sort is ascending by semester and is a permutation. For every semester it keeps exactly that semester's records in their stored order, so it is stable. |
| Queries.Trend | frontend/assets/script.js:221 | one `{sem, cgpa}` point per record, aligned with the records |
| Queries.GetStudentPerformance | frontend/assets/script.js:217-223 | Null for an unknown user. Otherwise it returns the student's identity and a stably sorted copy of the records, which is a permutation of them. The trend has the same length, with matching sem and grade. |
| Queries.InsertElements | frontend/assets/script.js:220 | inserting adds exactly the one record to the multiset of records |
| Queries.InsertMembers | frontend/assets/script.js:220 | a record is in the result of inserting iff it is the inserted record or was there before |
| Queries.ResolveAll | frontend/assets/script.js:204 | the map-and-filter loop returns `Resolve`: the found students of the assigned usernames, in assignment order |
| Queries.SumLatest | frontend/assets/script.js:206-213 | the accumulator loop returns the sum of the latest grades and the number of students that have one |
| Queries.ComputeFacultyAverages | frontend/assets/script.js:201-215 | the two accumulator loops return `FacultyAverages`: null for an unknown faculty member, otherwise the resolved student count and the rounded mean of the latest grades |
| Queries.GradedCount | frontend/assets/script.js:206-212 | at most one grade is counted per resolved student |
| Queries.LatestGradeIsLastGraded | frontend/assets/script.js:207-209 | The latest graded record is the last record with a grade in stored order, and none follows it. There is none exactly when no record has a grade. |
| Queries.ResolveMembership | frontend/assets/script.js:204 | a student is resolved iff one of the assigned usernames finds it; unknown usernames are dropped |
| Queries.GradeSumBounds | frontend/assets/script.js:206-212 | with grades in [0, 10], the sum of latest grades lies between 0 and 10 times their count |
| Queries.AverageOnScale | frontend/assets/script.js:201-215 | with every stored grade in [0, 10], the faculty average is in [0, 10] |
| Queries.NoAverageWithoutGrades | frontend/assets/script.js:214 | the average is null exactly when no resolved student has a graded record |

## Left out

- Persistence: `DB.load`, `DB.save` and `localStorage` (lines 2-33). Each save is one ghost snapshot in `Engine.saved`. Serialisation and storage failures are not modelled.
- The sample dataset (lines 7-23). The store is a parameter of the engine's constructor.
- The user interface (lines 227-426): login and its password compare, DOM rendering, charts, form parsing, `window.PBL`. This is browser glue.
- The backend (Express routes, Mongoose models, authentication): it is a separate program over libraries that are not part of this model.
- Floating point.
  - Numbers are exact reals.
  - `toFixed(2)` is exact decimal rounding with ties away from zero. Binary rounding error, and the ties it moves, are not modelled.
  - NaN and infinities are not modelled. In particular, `Math.sqrt(s/m) || 1` is modelled for a zero root only, not for NaN.
  - A cumulative GPA that is not a number becomes `None`.
- `Math.sqrt`: it is a parameter. No property of square roots is assumed.
- Convergence of gradient descent: the code neither claims nor checks it.
- Regression.PredictLinear: requires a well-formed model whose feature count matches the input. The code reads past the arrays otherwise; that is not modelled.
- Regression.GradientDescent, Regression.FeatureScale: require a non-empty rectangular matrix, as every caller supplies (`trainLinearModel` returns early on an empty one).
- Prediction.Engine.SaveStudentMarksAndPredict:
  - The record is updated in place in JavaScript. Here the record and the student are values written back into the `students` field.
  - Aliasing of the record object between the store and later readers is not modelled.
  - An unknown student is a `Failure(StudentNotFound)` result, where the code throws an exception.
- Queries.GetStudentPerformance: `sort` is modelled as a stable insertion sort. The engine's built-in sort is stable, but which stable algorithm it uses is not modelled.
- The `faculty` list of `Engine` is not used by the modelled operations except `computeFacultyAverages`. That query takes the store as parameters rather than reading the engine's fields.
