# Sentiment service and feedback store, modelled in Dafny

This project models the stateful core of a small sentiment-analysis web
application: the service facade that validates review text and asks a loaded
binary classifier for a sentiment, the classifier's lifecycle (unloaded,
then loaded) and its prediction contract, and the feedback store that records
whether users agreed with a prediction and aggregates accuracy statistics.

Modules, one per source file, plus two helper modules (`Wrappers` and `Strings`):

- `Wrappers`: `Option` and `Result`, standing in for `None` and raised exceptions.
- `Strings`: Python's `str.strip()` and `str.isspace()`, used by both validation layers.
- `Classifier` (`src/models/sentiment_model.py`): class `SentimentModel` with
  its `loaded` flag, its tokenizer and network, `Load` and `Predict`. The
  tokenizer and network are opaque capabilities held as function values. The
  network's answer is the argmax index plus the per-class softmax scores, in
  hundredths of a percent.
- `Service` (`src/services/sentiment_service.py`): `ValidateInput`, the error
  translation of `analyze`, and class `SentimentService`. The class attribute
  `_instance` is modelled by class `ServiceInstance`, whose `Obtain` stands
  for a call of `SentimentService()`.
- `FeedbackTable` (`src/database/models.py`): the `Feedback` row and `ToDict`.
- `Repository` (`src/database/repository.py`): class `FeedbackRepository`.
  It holds the table as a sequence of rows in table order. Its invariant is
  that ids strictly increase.

The confidence is the score of the predicted index
(src/models/sentiment_model.py:71). The index comes from `argmax`
(line 70), so for a two-class answer the confidence is the larger of the two
scores (`Classifier.ConfidenceIsMaxScore`). The network is an opaque
parameter that may answer with any index, so that lemma takes the argmax
property as its requirement.

Inputs from outside the program are parameters:

- the outcomes of fetching the tokenizer and the weights and of placing them on the device;
- the configured model path and device;
- the clock value for `created_at`;
- the `isoformat` renderer;
- whether a database commit fails.

The code behaves as follows, which may be unexpected:

- Creating feedback does no field validation of its own
  (src/database/repository.py:24-36). A missing required value is rejected
  by the table's NOT NULL constraints at commit
  (src/database/models.py:15-18). So the model reports a `NotNullViolation`
  naming the first such column in declaration order, and then rolls back.
- Ids come from the default SQLite table, whose integer primary key is the
  rowid (src/database/models.py:14). A new id is one more than the largest
  present. So ids are unique and larger than every existing id, but an id
  can be used again after the row holding the largest one is deleted.
- The sentiment is `LABELS.get(index, "Unknown")`
  (src/models/sentiment_model.py:73), so an index other than 0 or 1 gives
  "Unknown".
- A failed `load` can leave the tokenizer stored, because the source assigns
  each artifact as soon as it is fetched (src/models/sentiment_model.py:48-52).
  The model still stays unloaded.

## Model

| member | source | states |
|---|---|---|
| `Strings.Strip` | src/services/sentiment_service.py:93 | the result is the slice of the input between its maximal leading and trailing whitespace (Python's `isspace` set); it is empty exactly when the input is all whitespace, and otherwise starts and ends with a non-space |
| `Strings.StripIdempotent` | src/services/sentiment_service.py:93-101 | stripping a stripped text changes nothing |
| `Service.ValidateInput` | src/services/sentiment_service.py:77-101 | `None` gives "Text cannot be None"; a blank text after stripping gives "Text cannot be empty"; a stripped text over 10000 characters gives the too-long message; the text is accepted exactly when its stripped form has 1 to 10000 characters, and the accepted value is that stripped form |
| `Service.ValidateIdempotent` | src/services/sentiment_service.py:93-101 | validating an accepted value accepts it again, unchanged |
| `Service.ValidatedIsNotBlank` | src/services/sentiment_service.py:58-63 | a validated text never trips the model's blank check, so that `ValueError` cannot reach `analyze` from the model |
| `Service.Translate` | src/services/sentiment_service.py:68-75 | not-loaded becomes "Service not initialized. Please try again later.", a prediction failure becomes "Failed to analyze text. Please try again.", and a `ValueError` keeps its message |
| `Service.TranslateHidesDetail` | src/services/sentiment_service.py:71-73 | the detail of a prediction fault does not reach the caller |
| `Service.SentimentService.constructor` | src/services/sentiment_service.py:28-32 | the object `__new__` creates has no model yet |
| `Service.SentimentService.Init` | src/services/sentiment_service.py:34-37 | a model is created, unloaded and with the configured path and device, only when none exists; an existing model is kept |
| `Service.SentimentService.Initialize` | src/services/sentiment_service.py:39-43 | delegates to the model's load: a loaded model is left untouched with success; otherwise it ends loaded exactly when every load step succeeded, success means loaded, a failure is `ModelLoadError` with "Failed to load model: " and the first failing step's reason, and the tokenizer and network are stored as far as their fetches succeeded |
| `Service.SentimentService.Analyze` | src/services/sentiment_service.py:45-75 | a validation failure is reported with its message whatever the model's state; a valid text on an unloaded model gives the not-initialized message; otherwise the result is the model's prediction for the stripped text, with model errors translated; after validation succeeds only the two fixed messages can come out |
| `Service.SentimentService.IsReady` | src/services/sentiment_service.py:103-105 | ready exactly when a model exists and its `IsLoaded` is true |
| `Service.SentimentService.GetStatus` | src/services/sentiment_service.py:107-113 | `ready == model_loaded`; `model_loaded` is the model's loaded flag, false without a model; the device is the model's device, or none without a model |
| `Service.ServiceInstance.constructor` | src/services/sentiment_service.py:25-26 | before the first construction there is no shared instance |
| `Service.ServiceInstance.Obtain` | src/services/sentiment_service.py:28-37 | every call returns the one shared instance and never replaces its model; the first call makes a fresh service with a fresh unloaded model with the configured path and device; a later call on an instance without a model creates one the same way |
| `Classifier.Label` | src/models/sentiment_model.py:73 | `LABELS` (line 32) looked up with a default: 0 is "Negative", 1 is "Positive", and the result is "Unknown" exactly for every other index |
| `Classifier.Interpret` | src/models/sentiment_model.py:70-79 | succeeds exactly when the scores cover the predicted index and both classes 0 and 1; then the sentiment is the index's label, the confidence is the predicted index's score, and the two scores are entries 0 and 1; otherwise it is a `PredictionError` |
| `Classifier.ConfidenceIsScoreOfLabel` | src/models/sentiment_model.py:71-74 | a "Negative" result has the negative score as its confidence, a "Positive" one the positive score |
| `Classifier.ConfidenceIsMaxScore` | src/models/sentiment_model.py:70-71 | for a two-class answer whose index is the argmax, interpretation succeeds, the label is not "Unknown", and the confidence is at least both scores |
| `Classifier.LoadFailure` | src/models/sentiment_model.py:46-56 | no failure exactly when the tokenizer, the weights and the placement all succeed; otherwise the first failing step's reason, in the order of the steps |
| `Classifier.BlankIsAllSpace` | src/models/sentiment_model.py:62 | the check `not text or not text.strip()` holds exactly for texts made only of whitespace |
| `Classifier.SentimentModel.constructor` | src/models/sentiment_model.py:34-40 | a new model is not loaded and holds no tokenizer or network; the path falls back to the configured one when absent, and the device when absent or empty |
| `Classifier.SentimentModel.IsLoaded` | src/models/sentiment_model.py:84-85 | the result is the model's loaded flag, and a loaded model holds both its tokenizer and its network |
| `Classifier.SentimentModel.Load` | src/models/sentiment_model.py:42-56 | on a loaded model it returns at once and changes nothing; otherwise it ends loaded exactly when all steps succeed; a failure raises `ModelLoadError` with "Failed to load model: " and the first reason, and leaves the model unloaded; each artifact is stored as soon as it is fetched |
| `Classifier.SentimentModel.Predict` | src/models/sentiment_model.py:59-82 | not loaded gives `ModelNotLoadedError` before the text is looked at; blank text gives `ValueError`; after those checks only success or `PredictionError` can come out; an inference fault (tokenizer then network, the helper `Infer`) carries "Prediction failed: " and its text; a successful inference gives `Interpret`'s result for the network's answer, so the sentiment is the label of its index, the confidence that index's score, and the two scores entries 0 and 1 |
| `FeedbackTable.ToDict` | src/database/models.py:23-34 | exactly the eight keys, every column reproduced unchanged, a missing optional value as null, and `created_at` rendered by `isoformat` |
| `FeedbackTable.ToDictRoundTrip` | src/database/models.py:23-34 | with a parser that inverts `isoformat`, the record is read back exactly from its dictionary |
| `Repository.NextId` | src/database/models.py:14 | the id given to a new row is at least 1 and greater than every id in the table |
| `Repository.FirstNullColumn` | src/database/models.py:15-18 | no violation exactly when text, predicted sentiment, predicted confidence and is-correct all have values; otherwise the first missing one in column order |
| `Repository.Find` | src/database/repository.py:50 | `query.get(id)`: a found row is in the table and has the id, and nothing is found exactly when no row has the id |
| `Repository.Remove` | src/database/repository.py:72-75 | the rows left are exactly the rows without the id, no more than before, and an absent id leaves the table as it was |
| `Repository.CountCorrect` | src/database/repository.py:56-57 | `filter_by(is_correct=value).count()`: at most the row count |
| `Repository.CountExtremes` | src/database/repository.py:56-57 | the count is zero exactly when no row has the judgement, and the row count exactly when every row has it |
| `Repository.FindUnique` | src/database/models.py:14 | with unique ids, the lookup returns the one row that holds the id |
| `Repository.CountsPartition` | src/database/repository.py:55-57 | because `is_correct` is never null, correct plus incorrect equals the total |
| `Repository.Accuracy` | src/database/repository.py:59 | 0 for an empty table, otherwise `correct / total * 100`; always within [0, 100] |
| `Repository.SortNewestFirst` | src/database/repository.py:45 | the rows reordered (same multiset) so that `created_at` never increases |
| `Repository.NewestPrefix` | src/database/repository.py:45 | a cut-off prefix of a newest-first order is newest first, drawn from the rows, and no row left out is newer than a row kept |
| `Repository.RemoveKeepsTable` | src/database/repository.py:72-75 | deleting keeps the ids increasing and, when the id was present, removes exactly one row |
| `Repository.FeedbackRepository.CreateFeedback` | src/database/repository.py:24-40 | success exactly when no required value is missing and the commit succeeds; then exactly one row is appended with the given values, a fresh id and `created_at` equal to the given clock value, and returned; a NOT NULL violation or a storage fault leaves the rows unchanged and is re-raised |
| `Repository.FeedbackRepository.GetAllFeedback` | src/database/repository.py:42-45 | default limit 100; returns `min(limit, total)` rows, newest first, drawn from the table, with no omitted row newer than a returned one |
| `Repository.FeedbackRepository.GetFeedbackById` | src/database/repository.py:48-50 | the row holding the id, or none exactly when no row holds it; reads only |
| `Repository.FeedbackRepository.GetFeedbackStats` | src/database/repository.py:52-66 | the total is the row count, correct counts the rows judged correct, correct plus incorrect equals the total, and the accuracy is 0 for an empty table or `correct / total * 100`, within [0, 100] |
| `Repository.FeedbackRepository.DeleteFeedback` | src/database/repository.py:69-82 | true exactly when a row had the id; an absent id gives false and changes nothing; a present id with a successful commit removes that row and keeps every other one; a failed commit leaves the rows unchanged and re-raises |
| `Repository.CreateThenGet` | src/database/repository.py:24-36 | a created row is found again by its id, and the count for its judgement grows by one |
| `Repository.DeleteThenGet` | src/database/repository.py:69-78 | after a delete the id is absent, and every other id is found exactly as before |
| `Repository.StatsOfThree` | src/database/repository.py:52-66 | a repository holding two correct judgements and one incorrect one reports total 3, correct 2, incorrect 1 and accuracy 200/3 percent |

## Left out

- Tokenization, the forward pass, softmax, argmax and moving tensors to the
  device are foreign calls and floating-point numerics. The tokenizer and the
  network are opaque functions. The network answers with an argmax index and
  integer scores. The tokenizer's truncation to 512 tokens is its own affair.
- Rounding to two decimals, both in `predict` and in the accuracy, is Python
  float rounding. Scores are exact integers in hundredths of a percent, and
  the accuracy and the stored confidence are exact reals.
- `torch.device` rejecting an unknown device string is not modelled. The
  device is kept as the string that was given.
- A non-string, non-`None` text passed to `analyze` makes `strip` raise an
  `AttributeError` that `analyze` does not catch. The model's text parameter
  is a string or `None`, so this case cannot be expressed.
- `predict` is only ever called with strings, so its `None` branch of
  `not text` is not modelled.
- `isoformat` is foreign formatting and is a parameter of `ToDict`.
- A negative `limit` is not modelled: for SQLite it means no limit. The
  limit is a natural number.
- The order among rows with equal `created_at` is left unspecified by the
  contract, as it is by SQL. The implementation keeps table order.
- NextId: ids are unbounded naturals. Once the largest rowid reaches
  2^63-1, SQLite picks a random unused id instead; that is not modelled.
- The 20-character length of `String(20)` columns is not modelled, because
  SQLite does not enforce it.
- `DeleteFeedback`: only a failure of the commit is modelled. A failure of
  the lookup query would also roll back and re-raise, leaving the rows
  unchanged.
- The SQLAlchemy session, transactions, durability and concurrency belong to
  the database engine. A commit either applies its change or leaves the rows
  as they were.
- The `BaseModel` abstract class, the `ModelError` base class and the `model`
  and `tokenizer` properties hold no logic. The error kinds are datatype
  constructors, and the fields are readable directly.
- Logging is not modelled.
- These files are not part of this model: the HTTP routes and app factories
  (`src/api/routes.py`, `src/app.py`, `app.py`), configuration
  (`src/config/settings.py`), the ad hoc scripts (`test.py`,
  `test_model_load.py`) and the `__init__.py` re-exports. The configured model
  path and device are a `Config` parameter.
