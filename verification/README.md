# Recommendation pipeline core, modelled in Dafny

This project models the core of the `ML_pipeline` recommendation pipeline. It covers four pieces of the repository's own logic.

- **Orchestration** (`orchestration.py`). The ten Prefect tasks share one step. It logs a start line and runs a fixed script. It then logs the script's captured stdout at info and its stderr at error: the whole stream is stripped, split at `'\n'`, and every non-empty line is tagged `[<script stem>]`. Finally the step raises its failure message on a non-zero return code, or logs its success line. The flow `recommendation_pipeline` submits the ten tasks; only the merge declares `wait_for`, on the three ingestion tasks. The model covers:
  - the step, as the `RunTask` method over an append-only `RunLogger`;
  - the flow, as the `RecommendationPipeline` method with its edge set and a readiness predicate.
- **Clickstream synthesis** (`generate_clickstream.py`). Each transaction gets a run of five to nine events:
  - a product view;
  - two to five browsing views;
  - an add-to-cart;
  - an optional wishlist;
  - the purchase click.

  Events are numbered by one global counter from 1, with ids `EVT` plus ten zero-padded digits. Each timestamp is moved back from the purchase time by a drawn offset. The list is then stably sorted by timestamp and counted per event type and per device. The optional `random.sample` is covered as well.
- **Purchase history** (`generate_purchase_history.py`).
  - `load_reviews` keeps the lines that decode, in file order.
  - `generate_purchase_history` maps review *i* to a transaction with id `TXN` plus *i* zero-padded to at least eight digits. Absent fields get fixed defaults, and the quantity and price come from the draws.
  - The CSV table has a fixed eight-column header.
- **Product popularity** (`generate_external_api.py`).
  - `load_metadata` groups the ratings of rows that have at least three columns and a parsable rating, keyed by product in first-seen order.
  - `calculate_popularity_score` fails on an empty table, and fails with `ZeroDivisionError` when every review count is 0. Otherwise it emits one record per product in dictionary order, and sorts them by score, highest first.

Randomness, the subprocess result, the JSON decoder, the `float` parser and the score formula are all parameters. The random draws are given as data constrained to their `randint` ranges. Python library behaviour the code depends on is modelled in support modules:
- `Text`: argument-less `str.strip()`, with Python's exact `isspace` set, `str.split('\n')`, `'\n'.join` and the `if line:` filter;
- `Decimal`: `str(int)` and `{:0Nd}` zero padding, with parsing back;
- `Lists`: `list.sort(key=...)` as a stable insertion sort, plus counting.

## Model

| member | source | states |
|---|---|---|
| `Orchestration.RunTask` | orchestration.py:11-29 | The log grows by exactly the task's log: start line, one tagged info record per stdout line, one tagged error record per stderr line, and the success line only on return code 0. The task raises its own failure message exactly when the return code is non-zero. |
| `Orchestration.LogOutput` | orchestration.py:19-22 | An empty stream adds nothing. Otherwise one record is added per non-empty piece of the stripped, split stream, in order, at the given level, each prefixed `[tag] `. |
| `Orchestration.LogLines` | orchestration.py:20-22 | The line loop appends one tagged record per non-empty piece, in order, and nothing for empty pieces. |
| `Orchestration.RunLogger.Log` | orchestration.py:13 | A logger call appends exactly one record and changes nothing else. |
| `Orchestration.RunLogger.constructor` | orchestration.py:12 | A new run logger holds no records. |
| `Orchestration.OutputLinesSpec` | orchestration.py:19-26 | Empty or whitespace-only output yields no lines. Each logged line is non-empty and has no newline. Together the lines are exactly the stripped text minus its newlines, in order, so only blank lines are dropped. |
| `Orchestration.BlankLinesDropped` | orchestration.py:20-21 | `"a\n\nb\n"` yields exactly the lines `a` and `b`: the interior blank line and the trailing newline produce no record. |
| `Orchestration.StepLogLayout` | orchestration.py:13-29 | Position by position: the start line first, then the stdout records in order, then the stderr records in order, then the success line exactly when the return code is 0. Every stdout record precedes every stderr record. |
| `Orchestration.StepLogLevelCounts` | orchestration.py:19-29 | The error records are exactly the stderr lines. The info records are the start line, the stdout lines and, on success only, the success line. |
| `Orchestration.FailingTaskLogsAllOutput` | orchestration.py:19-28 | A failing task logs everything the same run would log on success except the success line: output is logged before the return code is examined. |
| `Orchestration.ExitCodeClassification` | orchestration.py:27-30 | For any captured process result, a non-zero return code raises the task's failure message, and only then. The task's log holds its success line if and only if the return code is 0. |
| `Orchestration.TagIsScriptStem` | orchestration.py:94-110 | Each of the ten tasks spawns `python <script>`. The tag its output lines carry, written separately in the source, is the file stem of that script path. For example "Validate Data" runs `src/data_validation.py` and tags lines `data_validation`. |
| `Orchestration.TaskMessagesDistinct` | orchestration.py:10-218 | For every task, the success line differs from the start line and cannot be a tagged output line, so its presence identifies success. |
| `Orchestration.RecommendationPipeline` | orchestration.py:224-247 | The flow logs the banner, the start line, the banner and then the completion line, whatever the tasks do. It submits the ten tasks in source order, and only the merge carries `wait_for` (the three ingestion tasks). |
| `Orchestration.DeclaredEdges` | orchestration.py:232-245 | The declared dependency edges are exactly the three from the ingestion tasks to the merge. |
| `Orchestration.ReadyIff` | orchestration.py:237-245 | The merge is ready if and only if all three ingestion tasks have finished. Every other task is ready at once, including the six later ones before the merge finishes. |
| `Orchestration.SubmissionOrder` | orchestration.py:232-245 | Every task is submitted exactly once, and every task named in a `wait_for` was submitted earlier. |
| `Text.StripIsMaximalInfix` | orchestration.py:20 | `strip()` leaves the infix between the maximal whitespace prefix and the maximal whitespace suffix. That infix starts and ends with a non-space character. |
| `Text.StripEmptyIffAllSpace` | orchestration.py:19-20 | A stream strips to nothing if and only if it is all whitespace. |
| `Text.SplitJoin` | orchestration.py:20 | `split('\n')` yields newline-free pieces, one more than the number of newlines, and joining them with `'\n'` gives the text back. |
| `Text.JoinSplit` | orchestration.py:20 | Splitting the `'\n'`-join of newline-free pieces gives those pieces back. |
| `Text.NonEmptyKeepsText` | orchestration.py:21 | The `if line:` filter keeps every character: the concatenation of the kept pieces equals that of all pieces. |
| `Decimal.ZeroPadRoundTrip` | generate_clickstream.py:56 | Zero padding yields only digits and parses back to the number, for any width. |
| `Decimal.ZeroPadInjective` | generate_purchase_history.py:33 | Equal padded strings come from equal numbers, whatever the widths, so distinct counters give distinct ids. |
| `Decimal.ZeroPadFixedWidth` | generate_purchase_history.py:33 | A number below 10^width pads to exactly `width` characters. |
| `Decimal.ZeroPadShape` | generate_purchase_history.py:33 | `{:0Nd}` pads to a minimum width and never truncates: the result is N characters or the length of `str(n)`, whichever is larger, and it ends with `str(n)` in full. |
| `Lists.SortByPermutes` | generate_clickstream.py:127 | Sorting by key returns a permutation of its input. |
| `Lists.SortBySorted` | generate_clickstream.py:127 | Sorting by key returns a list that is non-decreasing in the key. |
| `Lists.SortByStable` | generate_clickstream.py:127 | Sorting is stable. When `rank` strictly increases along the input, the output is ordered by key and, among equal keys, by `rank`, so equal keys keep their input order. |
| `Lists.SortByCount` | generate_clickstream.py:127 | Sorting changes no count of elements that satisfy a predicate. |
| `Lists.SortByAll` | generate_external_api.py:74 | A property shared by every input element holds of every sorted element. |
| `Lists.CountAppend` | generate_clickstream.py:142-148 | Counts over a concatenation add up. |
| `Clickstream.EventIdRoundTrip` | generate_clickstream.py:56 | The counter is recovered from an `EVT` id, and every id is at least 13 characters. |
| `Clickstream.EventIdInjective` | generate_clickstream.py:56 | Two ids are equal if and only if their counters are equal. |
| `Clickstream.AppendTransactionEvents` | generate_clickstream.py:44-124 | One transaction's step appends exactly that transaction's run of events and advances the counter by the run's length. |
| `Clickstream.BrowseViews` | generate_clickstream.py:66-84 | The browsing loop produces exactly the run's browsing views, one per browse draw, in order. |
| `Clickstream.BuildEvents` | generate_clickstream.py:38-124 | The generation loop, with the counter starting at 1, produces the concatenation of the transactions' runs, numbered consecutively. |
| `Clickstream.TransactionShape` | generate_clickstream.py:50-124 | A run is: a view, one view per browse draw, an add-to-cart, a wishlist exactly when one was drawn, and the purchase click. That is five to nine events, all with the transaction's user and one drawn device. |
| `Clickstream.TransactionProducts` | generate_clickstream.py:72-73 | Browsing views carry the purchased product or `BROWSE<n>` with n in [1000, 9999]. Every other event carries the purchased product. |
| `Clickstream.TransactionTiming` | generate_clickstream.py:54-121 | The timestamp offsets are: view 1–24 h before the purchase, browses 10–300 min before, cart 5–60 min before, wishlist 10–120 min before the cart, and the click exactly at the purchase time. So every other event is strictly earlier than the click, and a wishlist is strictly earlier than its cart. |
| `Clickstream.GeneratedIds` | generate_clickstream.py:39-124 | Event *k* of the generated list carries counter `first + k`: the counter advances by one per event, across transactions. |
| `Clickstream.GeneratedIdsDistinct` | generate_clickstream.py:56-124 | All generated event ids are distinct. |
| `Clickstream.GeneratedNumbers` | generate_clickstream.py:39-124 | The id of event *k* parses to *k* + 1, so the ids strictly increase along the generated list. |
| `Clickstream.GeneratedLength` | generate_clickstream.py:43-124 | The generated list has between 5 and 9 events per transaction. |
| `Clickstream.TransactionKindCount` | generate_clickstream.py:86-124 | Each run has exactly one add-to-cart and exactly one purchase click. |
| `Clickstream.GeneratedKindCount` | generate_clickstream.py:43-124 | The add-to-cart count, and likewise the purchase-click count, equals the number of transactions. |
| `Clickstream.CountsAddUp` | generate_clickstream.py:142-148 | The per-type counts add up to the number of events, and so do the per-device counts. |
| `Clickstream.UsedTransactions` | generate_clickstream.py:33-36 | With no size or size 0, all transactions are used, unchanged. A positive size uses `min(size, len)` transactions drawn from the input without repetition: the sample's multiset is contained in the input's. A negative size is the `random.sample` error. |
| `Clickstream.PickedSubMultiset` | generate_clickstream.py:34-35 | Rows picked at distinct positions form a sub-multiset of the input, so no row is used more often than it occurs. |
| `Clickstream.SortedGeneratedEvents` | generate_clickstream.py:127 | The sorted list is a permutation of the generated one and non-decreasing by timestamp. Events with equal timestamps stay in generation order. No type or device count changes. |
| `Clickstream.CountStatistics` | generate_clickstream.py:142-148 | The statistics maps have a key exactly for each type or device that occurs, and its value is the number of such events. |
| `Clickstream.GenerateClickstreamEvents` | generate_clickstream.py:21-148 | For rows whose three columns are present and whose `transaction_time` is an integer within `datetime`'s range, it fails exactly when sampling fails. Otherwise the result is the sorted generated events of the used transactions. Each count table has a key exactly for each event type or device that occurs, holding its exact count. |
| `Clickstream.RunCounts` | generate_clickstream.py:33-148 | In the final list, the add-to-cart and purchase-click counts each equal the number of transactions used: `min(sample_size, len)` when sampling, all of them otherwise. |
| `PurchaseHistory.LoadReviews` | generate_purchase_history.py:8-22 | The reading loop keeps the decoded value of each trimmed line that decodes, in file order, and skips the rest. The number kept equals the number of lines that decode. |
| `PurchaseHistory.DecodedSingle` | generate_purchase_history.py:15-19 | One line contributes its decoded value exactly when it decodes, and nothing otherwise. |
| `PurchaseHistory.DecodedAppend` | generate_purchase_history.py:14-19 | Loading goes line by line: the reviews of a file are those of its first part followed by those of the rest. |
| `PurchaseHistory.DecodedCount` | generate_purchase_history.py:14-19 | Exactly one review is kept per line that decodes. |
| `PurchaseHistory.TransactionIdRoundTrip` | generate_purchase_history.py:33 | The index is recovered from a `TXN` id. Ids have at least 11 characters, and exactly 11 when the index is below 10^8. |
| `PurchaseHistory.GeneratePurchaseHistory` | generate_purchase_history.py:29-42 | It succeeds if and only if every review is an object. On failure it names the first non-object review. On success there is one record per review, in order, and record *i* is built from review *i* with index *i* + 1. |
| `PurchaseHistory.RecordIds` | generate_purchase_history.py:31-39 | Record ids carry their 1-based position and are pairwise distinct. Quantities stay in [1, 3] and prices in [10, 500]. |
| `PurchaseHistory.RecordFields` | generate_purchase_history.py:34-40 | Each field is the review's value when the key is present, and otherwise the fixed default (`UNKNOWN`, `UNKNOWN`, `Unknown`, `0`, `0.0`). |
| `PurchaseHistory.ReviewRoundTrip` | generate_purchase_history.py:34-40 | A review that holds a record's five values maps back to exactly that record, so no review field is lost. |
| `PurchaseHistory.TableShape` | generate_purchase_history.py:45-51 | The CSV has eight distinct columns and one row per record, in order. Each row has a cell per column, and the cell under a column is the record's field of that name. |
| `PurchaseHistory.HeaderDistinct` | generate_purchase_history.py:45-46 | The eight column names are pairwise distinct. |
| `PurchaseHistory.HeaderField` | generate_purchase_history.py:45-51 | Cell *k* of a row is the record's field named by header column *k*. |
| `Popularity.LoadMetadata` | generate_external_api.py:9-29 | The reading loop builds the grouped table of its rows. Every entry's count equals its number of ratings and is at least 1, and each product is listed once. |
| `Popularity.GroupWellFormed` | generate_external_api.py:14-26 | Grouping keeps every count equal to its number of ratings, at least 1, and keeps the key order duplicate-free. |
| `Popularity.GroupRatings` | generate_external_api.py:19-26 | A product has an entry if and only if some accepted row names it, so a row whose rating fails to parse creates none. The entry holds those rows' ratings in file order. |
| `Popularity.GroupTotal` | generate_external_api.py:19-24 | The counts of all products add up to the number of accepted rows. |
| `Popularity.MaxReviews` | generate_external_api.py:44 | The result is the largest count and is attained by some product. |
| `Popularity.MaxReviewsPositive` | generate_external_api.py:44-55 | For a loaded, non-empty table the maximum count is at least 1, so the log-scale divisor is never `log10(1)`. |
| `Popularity.CalculatePopularityScore` | generate_external_api.py:32-76 | It fails if and only if there are no products (`max()` of an empty list) or every review count is 0 (`ZeroDivisionError` from dividing by `log10(0 + 1)`), with the message CPython 3.11 gives for each. Otherwise it returns the dictionary-order records sorted by score, highest first. |
| `Popularity.UnsortedRecords` | generate_external_api.py:46-71 | One record per product in dictionary order, each with the product's unchanged count and its formula score. |
| `Popularity.ScoredRecords` | generate_external_api.py:46-74 | The output is a permutation of the per-product records, each faithful to its product. It is non-increasing by score, with equal scores kept in dictionary order. |
| `Popularity.ScoredRecordsDistinct` | generate_external_api.py:46-74 | No product has two records. |
| `Popularity.EveryProductScored` | generate_external_api.py:46-74 | Every product in the table has a record in the output. |

## Left out

- Prefect's runtime is not modelled: task runners, futures, concurrent execution, and what Prefect does downstream of a failed upstream. The flow is modelled as its sequence of submissions with their declared `wait_for` edges, plus a readiness predicate over those edges.
- The comment above the flow (orchestration.py:221, "Define Flow with Sequential Dependencies") suggests a chain. The flow as written declares no waits for the six later tasks (orchestration.py:240-245), and the model follows the code: those six tasks have no upstream.
- Spawning the subprocess and the child scripts are not modelled. The captured stdout, stderr and return code are inputs of `RunTask`.
- The three ingestion scripts and `download_dataset.py` are not part of this model: they are database and file I/O.
- Reading and writing files are not modelled: the CSV and JSON files, `csv.reader`, `csv.DictWriter`, `json.dump`, and the printed statistics and sample rows. The written CSV is modelled as a table of header and rows of values, not as text.
- `json.loads` and `float()` are oracle parameters (`decode`, `parse`). A review that decodes to a non-object makes `.get` raise; it is modelled as a `Failure` naming its position.
- Floating point is not modelled: the popularity formula (`log10`, division, rounding), `avg_rating`, and `round(random.uniform(...), 2)`. The score is an integer key produced by a formula parameter, and prices are reals in [10, 500]. NaN and infinite ratings are not modelled.
- The random draws are inputs constrained to their ranges (`TxnDraws`, sample positions, quantities, prices). The `random.random() > 0.3` coin flips appear only as their outcomes.
- Timestamps are integer seconds, each event at purchase time minus its offset. The local-time `datetime` round trip (`fromtimestamp`, then `timestamp`), `strftime` strings and `datetime.now()` are not modelled. Across a daylight-saving change that round trip can move an event by an hour, and then reorder events. For example, in a zone that springs forward, a browse drawn 10 minutes before a purchase just after the change can get a timestamp after the purchase click. So `Clickstream.TransactionTiming`'s strict precedence, and the event order of `Clickstream.SortedGeneratedEvents`, hold for the integer-seconds model only.
- Clickstream.GenerateClickstreamEvents: the model takes transactions whose `user_id`, `product_id` and `transaction_time` columns are present and whose time is an integer within the range `datetime.fromtimestamp` accepts. The `KeyError` for a missing column, the `ValueError` of `int()` on a non-integer cell (an empty cell, `"1.5e9"`), and the `ValueError` of `fromtimestamp` for an out-of-range year (generate_clickstream.py:44-49) are not modelled.
- Popularity.CalculatePopularityScore: the empty-dictionary message `EmptyMaxError` is the wording of CPython 3.11 and earlier. CPython 3.12 words it "max() iterable argument is empty". Nothing in the repository pins an interpreter version.
- `list.sort` runs in place in the source. It is modelled on values by `Lists.SortBy`, a stable insertion sort standing for Python's stable sort, and `reverse=True` is the stable sort on the negated key.
