# Sign-language recognizer core, modelled in Dafny

The recognizer classifies one photo of an American Sign Language hand sign as
a letter. A retrained image classifier produces the scores. Around the model
sit a few small rules, and this project models those rules and proves what
they promise:

- **Labels file** (`labels.dfy`, module `Labels`): `[line.rstrip() for line in f]`.
  The file is read through TensorFlow's `GFile`, whose `readline` drops every
  `'\r'` and splits on `'\n'`, newlines kept. Python's `str.rstrip()` then
  removes trailing whitespace, using the exact `str.isspace()` character set.
  All three programs read their labels this way
  (`webapp/ml_inference.py:35`, `app_gradio.py:24`, `classify.py:17`).
- **Ranking** (`ranking.dfy`, module `Ranking`): `scores.argsort()[-k:][::-1]`.
  numpy's default sort is not stable, so among equal scores the order is left
  open. Every ranking operation takes the order argsort returned as a
  parameter. That parameter is constrained only by `IsArgsort`. `Argsort`
  shows such an order exists for every score vector.
- **Inference engine** (`ml_inference.dfy`, module `Inference`): the
  `MLInferenceEngine` class of `webapp/ml_inference.py`.
  - It is a Dafny class holding the fields `sess`, `softmaxTensor` and `labelLines`.
  - `_load_model` sets and resets those fields step by step.
  - `predict` is guarded on both handles being set and builds its top-5 result.
- **Gradio front end** (`app_gradio.dfy`, module `GradioApp`): `predict_sign`.
  - It normalises the pixel channels: grey to RGB, RGBA to RGB, then RGB to BGR.
  - It encodes the image and runs the model.
  - It answers with the best letter and a dictionary mapping each of the top-five labels to its score.
  - Any exception becomes an error text with an empty dictionary.
- **Command-line classifier** (`classify.dfy`, module `Classify`): `classify.py`.
  - It ranks every class, best first.
  - It prints one line per class.
  - The `for` loop is a method with loop invariants.
- **Prediction history** (`database.dfy`, module `History`): the SQLite table
  behind `Database`. It is a class holding the rows in insertion order and the
  AUTOINCREMENT counter, which DELETE does not reset.
  - INSERT takes the clock's time from the caller.
  - `ORDER BY timestamp DESC LIMIT n` is stated as a specification (`IsRecentListing`). Rows with equal timestamps may come in any order.
  - COUNT, the GROUP BY mode and AVG are stated the same way (`IsStatistics`). Letters with equal counts may win either way.
  - Storage faults are a flag. Writes re-raise them; reads return `[]` or `None`.

`common.dfy` holds the shared `Option`, `Result` and `Byte` types.

Where the project's documentation and the code disagree, the model follows the code:

- **Ties in the ranking.** The documentation says equal scores break by ascending label index. The code calls numpy's unstable `argsort`, so the model leaves tie order open.
- **No image.** The documentation describes a missing image in `predict_sign` as a non-error "no image" result. The code reaches `image.shape` on `None`, and the catch-all turns that into the error text (`GradioApp.Fault.NoImage`).
- **Capped history.** The documentation describes a capped in-memory history with FIFO eviction. No such store appears in the modelled code, so none is modelled.
- **Output length.** The documentation mentions a check that the output length equals the label count. The code has no such check. A ranked index without a label raises `IndexError` at lookup, and the model keeps that.

## Model

| member | source | states |
|---|---|---|
| Labels.RStrip | webapp/ml_inference.py:35 | `rstrip()` keeps a prefix of the line. Everything it removes is whitespace, and what it keeps does not end in whitespace |
| Labels.RStripUnique | webapp/ml_inference.py:35 | Those three properties determine the stripped line uniquely |
| Labels.DropCR | webapp/ml_inference.py:34-35 | What `GFile`'s `readline` keeps of the file: no `'\r'` at all, and every other character as often as in the file |
| Labels.DropCRAppend | webapp/ml_inference.py:34-35 | Dropping `'\r'`s piece by piece is dropping them from the whole, so the kept characters stay in file order |
| Labels.DropCRKeepsPlainText | webapp/ml_inference.py:34-35 | A file without `'\r'` reaches the line splitter unchanged |
| Labels.Lines | webapp/ml_inference.py:34-35 | Iterating the file yields non-empty lines. A newline appears only at a line's end, and every line but the last ends in one |
| Labels.LinesHaveNoCR | webapp/ml_inference.py:34-35 | Once the `'\r'`s are dropped, no line holds one |
| Labels.LinesJoinBack | webapp/ml_inference.py:34-35 | The lines concatenate back to the text they were split from: apart from the dropped `'\r'`s nothing is lost or reordered |
| Labels.ParseLabels | webapp/ml_inference.py:34-35 | One label per line of the file once its `'\r'`s are dropped, in file order. Each label is its line stripped on the right, a prefix of that line, with no trailing whitespace, no newline and no `'\r'` |
| Labels.ParseLabelsRoundTrip | classify.py:16-17 | Writing clean names (no newline, no `'\r'`, no trailing whitespace) one per line and reading the file back gives the same names |
| Ranking.Argsort | webapp/ml_inference.py:84 | Every score vector has an argsort order: a permutation of its indices with non-decreasing scores |
| Ranking.ArgsortIsPermutation | webapp/ml_inference.py:84 | Any argsort order lists each index exactly once |
| Ranking.LastK | webapp/ml_inference.py:84 | Python's `s[-k:]` keeps the last min(k, n) elements. With k = 0 it keeps all of them |
| Ranking.Reverse | webapp/ml_inference.py:84 | `s[::-1]` holds element n-1-j at position j, and the same elements as `s` (equal multisets) |
| Ranking.TopK | webapp/ml_inference.py:84 | `argsort()[-k:][::-1]` holds the last k indices of the argsort order, last first |
| Ranking.TopKDistinct | webapp/ml_inference.py:84 | The ranked indices are in range and distinct |
| Ranking.TopKNonIncreasing | webapp/ml_inference.py:84 | Scores do not increase along the ranked indices |
| Ranking.TopKLeavesOutNoBetter | webapp/ml_inference.py:84 | No index left out of the top k scores higher than any index kept |
| Ranking.TopKSelects | webapp/ml_inference.py:84 | For k > 0 the slice is a top-k selection. It has min(k, n) distinct indices, best first, and nothing left out beats anything kept. Ties are unspecified |
| Ranking.TopKHeadIsBest | webapp/ml_inference.py:95-96 | The head of a top-k selection has the highest score of all indices |
| Ranking.FullRanking | classify.py:30 | `argsort()[-n:][::-1]` is a permutation of 0..n-1 with non-increasing scores |
| Ranking.TopKIsPrefixOfFullRanking | classify.py:30 | The top k are the first min(k, n) entries of the full ranking |
| Inference.ErrorMessage | webapp/ml_inference.py:107-108 | A failure inside `predict`'s try block is re-raised with the prefix "Prediction error: " |
| Inference.RankedEntries | webapp/ml_inference.py:87-93 | The list comprehension succeeds exactly when every ranked index has a label. Entry j then pairs `label_lines[top[j]]` with `scores[top[j]]` |
| Inference.BuildPrediction | webapp/ml_inference.py:84-105 | The result exists exactly when some index is ranked and all ranked indices have labels. It then reports the ranking: the prediction and confidence are the first entry's, and `success` is true. Otherwise the error is Python's IndexError text |
| Inference.RankingConfidences | webapp/ml_inference.py:84-100 | Over a top-k selection, the reported confidences do not increase, and the reported confidence is the highest score |
| Inference.Engine.constructor | webapp/ml_inference.py:18-57 | After `__init__` the engine is loaded exactly when loading succeeds, and then holds the session and the `final_result:0` tensor. A failed load leaves both handles unset. The labels are the parsed file, or empty if it could not be read |
| Inference.Engine.LoadModel | webapp/ml_inference.py:30-57 | `is_loaded` holds exactly when the labels, graph and tensor lookup all succeed. Any failure leaves both handles unset. Labels read before a later failure are kept |
| Inference.Engine.Predict | webapp/ml_inference.py:59-108 | An unloaded engine refuses before the model runs. A model exception comes back with the prefix. Otherwise the top five are a top-k selection, and the result is present exactly when there are scores and every ranked index has a label. It then pairs each entry's label and score, has non-increasing confidences, and reports the best score. Otherwise it carries the IndexError text |
| Inference.FailedLoadRefusesPrediction | webapp/ml_inference.py:50-57 | After a failed load every `predict` raises "Model not loaded", whatever the model would answer |
| GradioApp.FailureText | app_gradio.py:62-97 | An encoding failure shows the fixed "❌ Failed to encode image" text. Every other failure begins "❌ Error processing image: " |
| GradioApp.GrayToRgb | app_gradio.py:53-54 | Grey becomes three channels, each equal to the grey value |
| GradioApp.DropAlpha | app_gradio.py:55-56 | A four-channel pixel keeps its first three channels |
| GradioApp.SwapRedBlue | app_gradio.py:59 | RGB to BGR swaps channels 0 and 2 and keeps channel 1 |
| GradioApp.SwapRedBlueInvolution | app_gradio.py:59 | Swapping twice gives the image back, so no colour information is lost |
| GradioApp.PrepareForEncoding | app_gradio.py:52-59 | Normalisation succeeds exactly for grey, three-channel and four-channel images that have pixels. It yields three channels and the same pixel count. A rank-2 or rank-3 image without pixels fails `cvtColor`'s non-empty assertion, whatever its channel count; any other rank, or another channel count with pixels, is rejected |
| GradioApp.GrayBecomesThreeEqualChannels | app_gradio.py:53-59 | A grey pixel reaches the encoder as three copies of its grey value |
| GradioApp.ColourIsReorderedToBgr | app_gradio.py:55-59 | A colour pixel reaches the encoder as (blue, green, red) of its first three channels |
| GradioApp.ConfidenceDict | app_gradio.py:75-78 | The dict comprehension succeeds exactly when every ranked index has a label |
| GradioApp.ConfidenceDictSize | app_gradio.py:75-78 | The dictionary has at most one key per ranked index |
| GradioApp.ConfidenceDictCoversTop | app_gradio.py:75-78 | The label of every ranked index is a key |
| GradioApp.ConfidenceDictFromTop | app_gradio.py:75-78 | Each key maps to the score of a ranked index carrying that label |
| GradioApp.ConfidenceDictLastWins | app_gradio.py:75-78 | When a label repeats, the later ranked index's score is kept |
| GradioApp.ConfidenceDictIsDictionaryOf | app_gradio.py:75-78 | The built dictionary is exactly the ranking's dictionary (`IsDictionaryOf`): the four facts above, so a repeated label keeps the later score |
| GradioApp.ReplyForScores | app_gradio.py:72-93 | Once the model has answered, a letter is recognised exactly when there are scores and every top-five index has a label. Otherwise the error is the label lookup's, or `top_k[0]`'s exactly when there are no scores, with `{}`. A recognised answer satisfies `RecognizesBest` (next row) |
| GradioApp.RecognizedReplyIsBest | app_gradio.py:72-83 | The recognised letter is the label of the head of a top-five selection, and no index outscores it. The dictionary belongs to that selection: every top-five label is a key, each key maps to the score of a ranked index carrying it (the last such index), and there are at most min(5, n) keys |
| GradioApp.PredictSign | app_gradio.py:37-97 | A missing image is the `NoImage` error. A normalisation failure is that failure's error. The fixed encode-failure text comes exactly when normalisation succeeds and the encoder fails. A model exception is the `ModelFault` error with its text. Every answer other than a recognised letter has an empty dictionary. Once the model has answered, the answer is `ReplyForScores` of its scores, so a letter is recognised exactly when that row says, and it satisfies `RecognizesBest` |
| GradioApp.EncodeFailureSkipsModel | app_gradio.py:62-64 | When encoding fails the answer is the fixed message with `{}`, and it is the same whatever the model would return |
| Classify.PrintRanking | classify.py:31-34 | The loop prints, in ranking order, one line per ranked index pairing its label and score. It prints all of them exactly when every ranked index has a label. Otherwise it stops at the first unlabelled index |
| Classify.RunScript | classify.py:9-34 | The script stops at the first failing step with that step's outcome and the files opened so far. A missing argument opens nothing; an unreadable image opens only it; an unreadable labels file opens the image and the labels; an unreadable graph, a graph that does not import, or a model exception opens all three. It prints exactly when every file is read, the graph imports and the model answers. The ranking is then a permutation of all classes with non-increasing scores, and the lines follow it |
| Classify.RankAndPrint | classify.py:30-34 | The full ranking is a permutation of all classes with non-increasing scores, and the printed lines follow it (`ReportsFullRanking`): all of them when every class has a label, otherwise exactly those before the first unlabelled one |
| History.LimitCount | webapp/database.py:83-88 | `LIMIT n` keeps min(n, rows) rows, and all rows when n is negative |
| History.CountPositive | webapp/database.py:121-124 | A letter has a positive count exactly when some row carries it |
| History.EmptyTableQueries | webapp/database.py:117-141 | On an empty table the listing is empty and the statistics are (0, None, 0, 0.0) |
| History.SortedPrefixIsListing | webapp/database.py:83-90 | The first LIMIT rows of any newest-first arrangement of the table meet the query's specification. They are the right number, are unchanged table rows with none twice, run newest first, and leave out no row newer than one returned |
| History.RecentListing | webapp/database.py:83-90 | The computed answer to `ORDER BY timestamp DESC LIMIT n` meets that specification (`IsRecentListing`) |
| History.MostCommonAmong | webapp/database.py:121-128 | The chosen letter is the letter of one of the candidate rows, and no candidate row's letter occurs more often in the table |
| History.MostCommonOverall | webapp/database.py:121-128 | A letter that no row's letter outnumbers is outnumbered by no letter at all |
| History.ComputeStatistics | webapp/database.py:116-141 | The computed statistics meet the specification (`IsStatistics`). `total` is the row count. No letter outnumbers the most common letter, and its count is its number of rows. The average is sum/total, or 0.0 when the table is empty |
| History.Database.constructor | webapp/database.py:13-38 | A new database holds an empty table whose counter has issued no id |
| History.Database.Reopen | webapp/database.py:13-31 | On an existing file, `CREATE TABLE IF NOT EXISTS` keeps the rows and the AUTOINCREMENT counter. The table is then exactly those rows under that counter |
| History.Database.AddPrediction | webapp/database.py:44-66 | On success it appends exactly one row with the letter, the confidence and the clock's time. The row's id is above every id ever issued, including ids whose rows were cleared. A fault, or an exhausted id space, re-raises and changes nothing |
| History.Database.GetRecentPredictions | webapp/database.py:68-108 | It returns a valid newest-first listing of the table, or `[]` on a storage fault or on a limit outside SQLite's 64-bit INTEGER range (binding raises OverflowError). It changes nothing |
| History.Database.GetStatistics | webapp/database.py:110-145 | It returns the table's statistics, or None exactly on a storage fault, and changes nothing |
| History.Database.ClearHistory | webapp/database.py:147-162 | On success it empties the table and keeps the id counter. A fault re-raises and changes nothing |
| History.ClearThenQuery | webapp/database.py:147-162 | After a successful clear, recent predictions are `[]` and the statistics are all zero |
| History.StatisticsExample | webapp/database.py:110-141 | Rows A 0.9, A 0.8, B 0.7 give total 3, letter A, count 2, average 0.8 |

## Left out

- TensorFlow graph loading, session creation and `sess.run` are not modelled (`webapp/ml_inference.py:38-45,78-81`, `app_gradio.py:27-34,69`, `classify.py:20-28`). They are foreign calls. Their outcome is a `LoadEnv` value or a flag, and `sess.run` is a function parameter from the encoded bytes to the score vector or the exception text.
- `cv2.imencode` and the PIL-to-numpy conversion are not modelled. They are foreign codecs. The encoder is a function parameter that succeeds with bytes or fails.
- OpenCV's exception texts are not modelled, except for the empty-input assertion. Its detail is the tail of OpenCV's message; the `OpenCV(<version>) <file>:<line>: error: ` prefix is left out, because it depends on the installed build. Every other rejected layout is `UnsupportedLayout`, and its detail text is a stand-in. This includes arrays of rank 4 or more, which the model rejects whether or not they have pixels, and three-dimensional arrays with zero channels, whose conversion to an OpenCV matrix is not modelled.
- Pixel values are `Byte` (numpy `uint8`). Arrays of other dtypes cannot be represented, such as PIL mode "1" (bool) or mode "I" (int32); `cvtColor` rejects or converts those differently.
- The module-level loading in `app_gradio.py` (lines 17-35) is not modelled. A failure there aborts the program before any prediction. The label list is an input to `predict_sign`. (The loading in `classify.py` is modelled by `Classify.RunScript`.)
- The Gradio interface, its event wiring, the example-image scan and launch (`app_gradio.py:99` onwards) are not modelled. They are presentation and file-system I/O.
- The SQLite connection handling, `_init_database`'s error print and `is_connected` are not modelled. They are I/O.
- The `CURRENT_TIMESTAMP` clock is a caller-supplied integer, in seconds.
- Every storage failure is one `storageFault` flag.
- Floating-point formatting and scaling are not modelled: `* 100`, `.1f`, `.5f`, `.upper()` and the markdown text. Scores are exact reals. The recognised reply carries the label and the unscaled score.
- Console `print` output is not modelled, except for the classifier's score lines, which are the `ScoreLine` values.
- `__del__` session cleanup is not modelled. It is resource management.
- Concurrency is not modelled. No modelled file uses threads or locks.
- A capped in-memory history is not modelled, because it does not appear in the modelled code.
- History export is not modelled, because it does not appear in the modelled code.
- Tie-breaking is left unspecified wherever the code leaves it open: equal scores in argsort, equal counts in the GROUP BY mode, and equal timestamps in the ORDER BY. `Argsort`, `RecentListing` and `MostCommonAmong` are one admissible choice each. The guarantees are stated for every admissible answer, through `IsArgsort`, `IsRecentListing` and `IsStatistics`.
- History.Database.GetRecentPredictions: the default argument `limit=20` is not modelled; callers pass a limit explicitly.
- History.Database.AddPrediction: the rows' `timestamp` text format is not modelled. Ordering by that text is ordering by the modelled integer time.
