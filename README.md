# Smart-fridge shelf-life ledger, modelled in Dafny

The server classifies a photo of a piece of fruit and looks up a shelf life
for the top label. It appends a timestamped expiry record to a JSON ledger
file. An embedded display then fetches the most recent record. This project
models that core on values and proves its properties:

- `shelf_life.dfy` (module `ShelfLife`) holds the fixed five-entry policy
  table. A name is looked up after lower-casing and gets 5 days when it is
  not listed.
- `ledger.dfy` (module `Ledger`) holds the expiry record and the ledger file.
  The file is missing, unreadable, or a stored list of records. Saving loads
  the list, treats a failed load as empty, appends, and rewrites the whole
  file. The class `ExpiryLedger` holds the file as a field that `SaveRecord`
  reassigns. The module also answers the "latest record" request in four
  ways: no data, no records, the last record, or a read failure.
- `server.dfy` (module `Server`) holds the decision logic of the
  `/predict` and `/upload` handlers.
  - A request without a file is rejected and nothing is saved.
  - A failed image or an empty classifier result is a server error, and
    nothing is saved.
  - Otherwise the classifier's ranked candidates go into the response in
    order, and exactly one record is saved. Its fruit is the first
    candidate's description.

Inputs that the source gets from its environment are parameters here:
- The clock is a reading `now` in integer microseconds. Stored timestamps
  keep whole seconds, as the `%Y-%m-%d %H:%M:%S` format does.
- The classifier's ranked output arrives inside the `Upload` value, together
  with whether the uploaded part has a file name.
- Whether the server runs in debug mode is a parameter of the upload
  handler. The source's own launch turns debug mode on.
- The file's prior content is the `StoreFile` value.

In these places the model follows the code rather than what one might expect:
- The saved `fruit` is the description exactly as the classifier gave it.
  It is not lower-cased: only the policy lookup lower-cases it.
- The description is recorded, not the class id.
- `latest_record` on an unreadable file raises, which the framework turns
  into a 500. The model's answer for it is `ReadFailure`. `save_record`
  treats the same file as empty.
- A failure to decode or classify is a 500-level `ServerError`, not a
  distinct error kind.

## Model

| member | source | states |
|---|---|---|
| `ShelfLife.Lower` | server_infer.py:30 | the lower-case form has the same length, and each character is the input's character with A-Z folded to a-z |
| `ShelfLife.LowerIdempotent` | server_infer.py:30 | lower-casing twice gives the same string as lower-casing once |
| `ShelfLife.LowerOfLowerCase` | server_infer.py:30 | a name without upper-case letters is unchanged by lower-casing |
| `ShelfLife.ExpiryDays` | server_infer.py:21-30 | the shelf life is always between 2 and 10 days; it is the default of 5 exactly when the lower-cased name is not in the table |
| `ShelfLife.ExpiryDaysOfListedFruit` | server_infer.py:23-29 | each listed fruit gets its table entry: apple 7, banana 3, orange 10, strawberry 2, pomegranate 10 |
| `ShelfLife.ExpiryDaysOfOtherNames` | server_infer.py:30 | "Banana" gives 3 and "APPLE" gives 7 (case is ignored); "kiwi" gives the default 5 |
| `ShelfLife.ExpiryDaysCaseInsensitive` | server_infer.py:30 | two names that differ only in letter case get the same shelf life |
| `ShelfLife.ExpiryDaysOfLower` | server_infer.py:30 | looking up a name gives the same result as looking up its lower-case form |
| `Ledger.StampShift` | server_infer.py:41 | adding a whole number of seconds to a clock reading adds the same number of seconds to its timestamp |
| `Ledger.RecordFromReadings` | server_infer.py:37-43 | the record built from two clock readings keeps the name unchanged and takes its shelf life from the policy; its added time is the first reading's second; its expiry is the second reading's second plus the shelf life in days |
| `Ledger.ReadingsSkew` | server_infer.py:40-41 | a record built from two readings is consistent (expiry = added + shelf life) exactly when both readings fall in the same second |
| `Ledger.ReadingsSkewExample` | server_infer.py:40-41 | readings 999999 and 1000000 microseconds give a banana record whose expiry is one second past added + 3 days |
| `Ledger.MakeRecord` | server_infer.py:37-43 | the record built from one reading `now` keeps the name unchanged, is added at `now`'s second, and is consistent |
| `Ledger.Appended` | server_infer.py:46-56 | after a save the store holds a list one record longer; every earlier record is unchanged at its index, and the new record is last |
| `Ledger.AppendToUnloadable` | server_infer.py:46-50 | saving over a missing or unreadable file leaves exactly the one new record |
| `Ledger.LatestRecord` | server_infer.py:113-126 | "no data" exactly when the file is missing; a read failure exactly when it is unreadable; "no records" exactly when the list is empty; otherwise the list's last record |
| `Ledger.LatestAfterAppend` | server_infer.py:52-56 | right after a save, the latest record is the one just saved |
| `Ledger.AppendedAllExtends` | server_infer.py:46-56 | a run of one or more saves, one after another, yields the earlier list followed by the new records in order, with none lost or repeated |
| `Ledger.AppendKeepsWellFormed` | server_infer.py:37-52 | if every stored record is consistent, a save keeps every record consistent |
| `Ledger.AppendKeepsChronological` | server_infer.py:40-52 | if the ledger is in time order and the clock has not run back past any stored record, a save keeps it in time order |
| `Ledger.ExpiryLedger.SaveRecord` | server_infer.py:32-56 | the new store is the old one with the record for (name, `now`) appended, as `Appended` describes; the latest record is then that record |
| `Server.StatusCode` | server_infer.py:66-67 | 400 exactly for the two missing-field responses, 500 exactly for a server error, 200 otherwise |
| `Server.Predicted` | server_infer.py:83 | one response object per candidate, in the classifier's order; each reads back as exactly that candidate's class, description and confidence |
| `Server.ResultLines` | server_infer.py:104 | one page line per candidate, in order, with that candidate's description and confidence |
| `Server.Predict` | server_infer.py:64-91 | with no file field: "No file uploaded" with status 400, ledger unchanged. The part's file name is ignored. With a failed image or no candidates: 500, ledger unchanged. Otherwise status 200, every candidate in order, and one record appended for the first candidate's description |
| `Server.UploadFile` | server_infer.py:94-130 | GET, or a part with an empty file name: the blank form, ledger unchanged. POST without the field: 400, or 500 in debug mode, ledger unchanged. Failed image or no candidates: 500, ledger unchanged. Otherwise status 200, the result page in order, and one record appended for the first candidate's description |
| `Server.LatestAfterPredict` | server_infer.py:86-89 | after a successful prediction, the latest record exists. Its fruit is the first prediction's description, its shelf life follows the policy, it is added at `now` and it is consistent. The ledger grew by one. |
| `Server.BananaScenario` | server_infer.py:25 | a top candidate "banana" is saved with 3 days and expires exactly 3 days after it was added |
| `Server.KiwiScenario` | server_infer.py:30 | a top candidate "kiwi" is saved with the default 5 days and expires exactly 5 days after it was added |

## Findings

| source | as written | input that shows it | evidently intended | confidence | as-written member | corrected member |
|---|---|---|---|---|---|---|
| server_infer.py:40-41 | the added time and the expiry time each read the clock separately, and each is cut to whole seconds | two readings at 999999 and 1000000 microseconds, one microsecond apart, with a second boundary between them: a banana record added at second 0 expires at 3 days + 1 second | one clock reading for both, so that expiry = added + shelf life in days | not executed; medium (depends on the clock crossing a second between two adjacent calls) | `Ledger.RecordFromReadings`, `Ledger.ReadingsSkewExample` | `Ledger.MakeRecord` |

## Left out

- The HTTP layer is not modelled: routing, request objects, the `/` liveness
  route, template rendering and server start-up. Each handler is a method
  over an `Upload` value and a `Response` value.
- Image decoding, RGB conversion, resizing, pixel preprocessing and the
  MobileNetV2 call are not modelled. Their outcome is part of the `Upload`
  input: `Undecodable` for any failure, `Classified(ranked)` otherwise. The
  two handlers preprocess differently, so each call gets its own outcome.
- Confidences are floating point in the source. Here they are `real` values
  that are passed through and never inspected. The upload page's percentage
  formatting is not modelled: a line keeps the description and the raw
  confidence.
- Timestamps are not calendar dates here. They are whole seconds on the
  local wall clock. The string format, daylight-saving jumps and the
  overflow past year 9999 are not modelled.
- Filesystem details are not modelled: creating the data directory, opening
  the file and JSON encoding. They are replaced by the `StoreFile` value. A
  file holding valid JSON that is not a list is not modelled: the source's
  append would raise on it. A write that fails partway through is not
  modelled: rewriting the file is assumed to succeed.
- Status codes other than the upload handler's missing field assume the
  framework's default handling: in debug mode every 500 is the debugger's
  page rather than a plain error.
- Concurrent requests and their read-modify-write race are not modelled:
  saves happen one after another.
- ShelfLife.Lower: folds only the ASCII letters A-Z. Python's `lower()`
  covers all of Unicode, which matters only for names with non-ASCII
  letters.
- Ledger.ExpiryLedger.SaveRecord: uses one clock reading for both
  timestamps, as the finding corrects. The source's two readings are
  modelled by `Ledger.RecordFromReadings`.
- Server.Predict, Server.UploadFile, Server.LatestAfterPredict,
  Server.BananaScenario, Server.KiwiScenario: the record they save or inspect
  is the single-reading one from `Ledger.MakeRecord`. The source can store an
  expiry one second later than added time plus shelf life, as the finding
  shows.
