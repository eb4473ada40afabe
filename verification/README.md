# qualtrics_audit: a verified model of the modular input's ingestion core

The Splunk add-on `qualtrics_audit` pulls the Qualtrics audit log into Splunk. On each run its
modular input (`stream_events`) does the following:

- it opens a checkpoint collection in the KV store;
- for every configured input, it resolves the input's account to a datacenter;
- it splits the `activity_types` setting into activity types;
- it computes one time window, which runs from the stored watermark (or 90 days ago) to now;
- for each activity type, it fetches every page of the audit-log endpoint over that window and writes one event per record;
- it saves the end of the window as the next run's watermark.

This project models that core in Dafny and proves what the code promises.

| file | module | what it holds |
|---|---|---|
| `wrappers.dfy` | `Wrappers` | `Option`, for missing keys and values that do not parse |
| `timestamps.dfy` | `Timestamps` | instants as integer microseconds; their stored text (`Encode`/`Decode`) and its round trip; the `Clock` class (`utcnow`) |
| `text.dfy` | `Text` | `str.split(sep)`, `sep.join`, `str.strip()` and their properties |
| `checkpoints.dfy` | `Checkpoints` | the checkpoint key, the watermark read (`get_last_end_date`), the saved document (`save_checkpoint`), and the `CheckpointStore` class |
| `pagination.dfy` | `Pagination` | the page chain a server produces, what the fetch loop returns, the `Transport` class, and the imperative fetch loop `FetchActivity` |
| `ingest.dfy` | `Ingest` | a value-level run: `ActivityRun`, `ActivitiesRun`, `InputStep`, `Run`, with lemmas on isolation, windows and checkpoints |
| `stream.dfy` | `Stream` | the `EventWriter` class and the imperative `stream_events` loops, each proved to have exactly the effects of the value-level run |

The imperative methods are specified by the value-level functions:

- `FetchActivity` is specified by `Chain`/`Collect`.
- `ProcessActivities` is specified by `ActivitiesRun`.
- `ProcessInput` is specified by `InputStep`.
- `StreamEvents` is specified by `Run`.

The lemmas then state the properties of those functions.

The collaborators become parameters:

- The API server is a total function from a requested URL to its reply. `Raised` stands for any exception from `session.get` or from decoding a 200 body.
- The clock is a sequence of readings. `taken` counts how many have been used.
- The configured accounts are a map from account name to datacenter.

Where the code and the usual reading of its comments differ, the model follows the code:

- An exception inside the fetch loop propagates out of `get_data_from_api_for_activity_type`. Such exceptions are a transport error, or a status-200 body that is not JSON. So that activity type writes nothing, even when earlier pages had arrived (`RaisedFetchWritesNothing`). Partial results survive only when a page comes back with a status other than 200 (`FailureEndsFetch`, `SecondPageFails`).
- A record without a readable `timestamp` or `descriptor` raises inside the per-activity `try`. This ends that activity type only. The events written before it stay written, the other activity types still run, and the checkpoint still advances (`Emitted`, `EmittedPrefix`, `ActivityIsolation`, `CheckpointIgnoresFetches`).

## Model

| member | source | states |
|---|---|---|
| Timestamps.Encode | package/bin/qualtrics_audit_helper.py:73 | Stands for `isoformat`. The stored text is never empty and starts with `-` exactly for instants before the epoch. `DecodeEncode` proves that `Decode` reads it back. |
| Timestamps.Decode | package/bin/qualtrics_audit_helper.py:60 | Empty text never reads as an instant. A text that reads starts with `-` or a digit, and every later character is a digit. |
| Timestamps.DigitsRoundTrip | package/bin/qualtrics_audit_helper.py:60 | The value of the decimal digits of `n` is `n`. |
| Timestamps.DecodeDigits | package/bin/qualtrics_audit_helper.py:60 | The stored text of a non-negative instant reads back as that instant. |
| Timestamps.DecodeMinusDigits | package/bin/qualtrics_audit_helper.py:60 | The stored text of a negative instant reads back as that instant. |
| Timestamps.DecodeEncode | package/bin/qualtrics_audit_helper.py:60-73 | What `save_checkpoint` stores (`isoformat`) is read back unchanged by `get_last_end_date` (`fromisoformat`). |
| Timestamps.Clock.constructor | package/bin/qualtrics_audit_helper.py:65 | A fresh clock has taken no reading. |
| Timestamps.Clock.UtcNow | package/bin/qualtrics_audit_helper.py:65 | `utcnow` returns the next reading and consumes exactly one. |
| Text.Split | package/bin/qualtrics_audit_helper.py:149 | `split` always yields at least one piece. |
| Text.SplitPiecesLackSeparator | package/bin/qualtrics_audit_helper.py:149 | No piece of `split(sep)` contains `sep`. |
| Text.JoinSplit | package/bin/qualtrics_audit_helper.py:149 | Joining the pieces with the separator gives the string back. |
| Text.SplitJoin | package/bin/qualtrics_audit_helper.py:169 | Splitting the join of separator-free pieces gives the pieces back. |
| Text.SplitCount | package/bin/qualtrics_audit_helper.py:169 | There is one more piece than there are separators. |
| Text.SplitWithoutSeparator | package/bin/qualtrics_audit_helper.py:169 | A string without the separator splits into itself alone. |
| Text.LastPiece | package/bin/qualtrics_audit_helper.py:149 | `s.split(sep)[-1]`. `LastPieceIsSuffix` proves it is what follows the last separator. |
| Text.LastPieceIsSuffix | package/bin/qualtrics_audit_helper.py:149 | The last piece (`[-1]`) is a suffix of the string. Unless it is the whole string, it starts right after a separator, so it is exactly what follows the last separator. |
| Text.OccurrencesPositive | package/bin/qualtrics_audit_helper.py:169 | A character is counted in a string exactly when it occurs there. |
| Text.TrimStart | package/bin/qualtrics_audit_helper.py:169 | Stripping the front never lengthens the string. |
| Text.TrimEnd | package/bin/qualtrics_audit_helper.py:169 | Stripping the back never lengthens the string. |
| Text.Strip | package/bin/qualtrics_audit_helper.py:169 | `strip()` never lengthens the string. |
| Text.TrimStartSuffix | package/bin/qualtrics_audit_helper.py:169 | What `lstrip` keeps is a suffix of the string. |
| Text.TrimStartDropsSpace | package/bin/qualtrics_audit_helper.py:169 | Every character `lstrip` drops is whitespace. |
| Text.TrimStartFirst | package/bin/qualtrics_audit_helper.py:169 | What `lstrip` keeps is empty or starts with a non-space. |
| Text.TrimStartAllSpace | package/bin/qualtrics_audit_helper.py:169 | `lstrip` of a string of whitespace is empty. |
| Text.TrimEndPrefix | package/bin/qualtrics_audit_helper.py:169 | What `rstrip` keeps is a prefix of the string. |
| Text.TrimEndDropsSpace | package/bin/qualtrics_audit_helper.py:169 | Every character `rstrip` drops is whitespace. |
| Text.TrimEndLast | package/bin/qualtrics_audit_helper.py:169 | What `rstrip` keeps is empty or ends with a non-space. |
| Text.StripIsInfix | package/bin/qualtrics_audit_helper.py:169 | `strip()` keeps a contiguous middle part of the string, in place. |
| Text.StripRemovesSpace | package/bin/qualtrics_audit_helper.py:169 | Everything before and after the kept part is whitespace. |
| Text.StripEnds | package/bin/qualtrics_audit_helper.py:169 | The kept part is empty or starts and ends with a non-space. |
| Text.StripPadded | package/bin/qualtrics_audit_helper.py:169 | A string is its stripped form with whitespace around it. The leading run is exactly what `lstrip` drops, and the stripped form has no whitespace at either end. |
| Text.StripIdempotent | package/bin/qualtrics_audit_helper.py:169 | Stripping twice is stripping once. |
| Text.StripAllSpace | package/bin/qualtrics_audit_helper.py:169 | A string of whitespace strips to the empty string. |
| Checkpoints.CheckpointKey | package/bin/qualtrics_audit_helper.py:50-52 | The key is, character by character, the input name, `_`, the account name and `_last_end_date`. |
| Checkpoints.CheckpointKeyInjective | package/bin/qualtrics_audit_helper.py:50-52 | Two (input, account) pairs whose input names contain no `_` share a key only when they are equal. |
| Checkpoints.CheckpointKeyCollision | package/bin/qualtrics_audit_helper.py:50-52 | Without that proviso, ("a_b", "c") and ("a", "b_c") share one key. |
| Checkpoints.LastEndDate | package/bin/qualtrics_audit_helper.py:55-65 | The start is the stored watermark when the document exists, has `last_end_date`, and its text reads. In each other case (no document, no field, or unreadable text) it is now minus 90 days. |
| Checkpoints.SaveRecord | package/bin/qualtrics_audit_helper.py:72-75 | The saved document has exactly the fields `last_end_date` and `updated_at`. |
| Checkpoints.SaveRecordValues | package/bin/qualtrics_audit_helper.py:72-75 | `last_end_date` reads back as the window's end date, and `updated_at` as the save-time reading. |
| Checkpoints.ReadAfterSave | package/bin/qualtrics_audit_helper.py:55-76 | After a save, the watermark under that key is the saved end date, whatever the clock then says. |
| Checkpoints.SaveKeepsOtherKeys | package/bin/qualtrics_audit_helper.py:76 | A save under one key leaves every other key's watermark and window unchanged. |
| Checkpoints.StoredEndDate | package/bin/qualtrics_audit_helper.py:58-60 | The watermark read. `LastEndDate`, `ReadAfterSave`, `SaveKeepsOtherKeys` and `MalformedFallsBack` state its cases. |
| Checkpoints.StartReadings | package/bin/qualtrics_audit_helper.py:57-65 | The clock is read for the start of the window only when the stored watermark is unusable, as at line 65: none when `StoredEndDate` gives a date, one otherwise. `GetLastEndDate` and `OpenWindow` are proved to take exactly this many readings. |
| Checkpoints.MalformedFallsBack | package/bin/qualtrics_audit_helper.py:57-65 | Any `last_end_date` whose text is not a date counts as no watermark and gives the 90-day fallback, not an error. |
| Checkpoints.YesterdayIsNotADate | package/bin/qualtrics_audit_helper.py:60 | One such text: "yesterday" does not read as a date. |
| Checkpoints.CheckpointStore.constructor | package/bin/qualtrics_audit_helper.py:137-142 | The store opens on the collection's current records. |
| Checkpoints.CheckpointStore.Update | package/bin/qualtrics_audit_helper.py:76 | `ckpt.update` replaces the document under the key and nothing else. |
| Checkpoints.GetLastEndDate | package/bin/qualtrics_audit_helper.py:55-65 | Returns `LastEndDate` for the first clock reading. It reads the clock only when it falls back. |
| Checkpoints.OpenWindow | package/bin/qualtrics_audit_helper.py:175-177 | The window starts at `LastEndDate`. It ends at the clock reading taken right after that. |
| Checkpoints.SaveCheckpoint | package/bin/qualtrics_audit_helper.py:68-76 | The store gains `end_date` as watermark under the key alone, stamped with one new clock reading. |
| Pagination.FirstPageUrl | package/bin/qualtrics_audit_helper.py:89-97 | The first request carries the activity type, page size 1000 and exactly the window's start and end. |
| Pagination.Follow | package/bin/qualtrics_audit_helper.py:103-123 | There is a next request exactly when the reply is a status-200 page with a non-empty `nextPage`. |
| Pagination.Continues | package/bin/qualtrics_audit_helper.py:103-113 | The truthiness of `while url`. A link continues the loop only when it is present and not the empty string, so a missing `nextPage` and `""` both stop the loop. `Follow` states it for every reply. |
| Pagination.Chain | package/bin/qualtrics_audit_helper.py:103-123 | A fetch makes at most `bound` requests. When it makes any, the first is to the first URL. |
| Pagination.Urls | package/bin/qualtrics_audit_helper.py:105 | One URL is sent per exchange. |
| Pagination.UrlsAt | package/bin/qualtrics_audit_helper.py:105 | The i-th URL sent is the URL of the i-th exchange. |
| Pagination.Collect | package/bin/qualtrics_audit_helper.py:99-126 | What the fetch loop returns after a chain of exchanges. `CollectChain`, `FailureEndsFetch` and `OkElementsCount` relate it to the reference `OkElements`, and `FetchActivity` is proved to return it. |
| Pagination.ChainFollowsLinks | package/bin/qualtrics_audit_helper.py:103-113 | Each later request is the `nextPage` link of the page before it. |
| Pagination.ChainLaterRequestsAreLinks | package/bin/qualtrics_audit_helper.py:113 | Only the first request of a fetch is a first-page query. |
| Pagination.ChainStops | package/bin/qualtrics_audit_helper.py:103-123 | A chain that ends within the bound ends on a reply with no follow-up. |
| Pagination.ChainBoundIrrelevant | package/bin/qualtrics_audit_helper.py:103 | Any sufficient bound gives the same requests and so the same result. |
| Pagination.CollectChain | package/bin/qualtrics_audit_helper.py:103-126 | The fetch returns the in-order concatenation of the 200 pages' elements, unless some request raised, in which case it raises. |
| Pagination.OkElementsCount | package/bin/qualtrics_audit_helper.py:110 | The number of records is the sum of the per-page element counts. |
| Pagination.FailureEndsFetch | package/bin/qualtrics_audit_helper.py:107-123 | A non-200 reply is the last request. The result is exactly the records of the pages before it. |
| Pagination.TwoPages | package/bin/qualtrics_audit_helper.py:103-126 | Two linked 200 pages give the first's records then the second's. The element count is the sum of the two pages' counts. |
| Pagination.SecondPageFails | package/bin/qualtrics_audit_helper.py:107-123 | A 500 on page 2 keeps page 1's records and sends no third request. |
| Pagination.ChainUnfold | package/bin/qualtrics_audit_helper.py:103-123 | One loop turn: request the URL, then continue from its follow-up link, if any. |
| Pagination.Transport.constructor | package/bin/qualtrics_audit_helper.py:182 | A new session has sent nothing. |
| Pagination.Transport.Get | package/bin/qualtrics_audit_helper.py:105 | `session.get` returns the server's reply and records exactly that request. |
| Pagination.FetchActivity | package/bin/qualtrics_audit_helper.py:79-126 | The loop sends exactly the chain's URLs in order. It returns what `Collect` gives for the chain: the concatenation of the 200 pages' elements, partial on a non-200 reply, raised on an exception. |
| Ingest.NormalizedName | package/bin/qualtrics_audit_helper.py:149 | `input_name.split("/")[-1]`. `NormalizedNameShape` proves it is the `/`-free tail of the name. |
| Ingest.ParseActivityTypes | package/bin/qualtrics_audit_helper.py:168-170 | There is always at least one activity type, so the activity loop always runs. `ActivityTypesShape` and `ActivityTypesDefault` state its contents. |
| Ingest.Sourcetype | package/bin/qualtrics_audit_helper.py:197 | The sourcetype is `qualtrics:audit:` followed by the activity type. `EmitRecords` and `EmittedPrefix` put it on every event of that activity type. |
| Ingest.Source | package/bin/qualtrics_audit_helper.py:198 | The source is the datacenter's audit-log endpoint. It is put on every event in the same way. |
| Ingest.WellFormed | package/bin/qualtrics_audit_helper.py:201-211 | A record can become an event only when both `timestamp` and `descriptor` are present and readable; otherwise line 203 or 207 raises and ends the activity type. `EmittedPrefix` proves events stop exactly at the first record that is not well formed. |
| Ingest.ToEvent | package/bin/qualtrics_audit_helper.py:201-211 | The event's time is the record's `timestamp` and its data the `descriptor`, with the activity type's sourcetype and source. `EmittedPrefix` proves the i-th event is `ToEvent` of the i-th record. |
| Ingest.Emitted | package/bin/qualtrics_audit_helper.py:200-214 | There are never more events than records. `EmittedPrefix` proves events are the records in order up to the first malformed one, and `EmitRecords` is proved to write exactly these. |
| Ingest.ActivityRun | package/bin/qualtrics_audit_helper.py:189-224 | One activity type's `try`: the requests of its page chain, and its events unless the fetch raised. `FailedActivityWritesNothing` and `RaisedFetchWritesNothing` state its failure cases, and `ProcessActivity` is proved to have exactly these effects. |
| Ingest.ActivitiesRun | package/bin/qualtrics_audit_helper.py:188-224 | The activity loop. `ActivitiesRunAppend`, `ActivityIsolation` and `SameWindowForAllActivities` state its properties, and `ProcessActivities` is proved to have exactly these effects. |
| Ingest.InputStep | package/bin/qualtrics_audit_helper.py:149-246 | One input's loop body. `InputSkipped`, `InputCommit`, `NextWindowStartsAtEnd`, `CheckpointIgnoresFetches` and `InputOnlyAppends` state its properties, and `ProcessInput` is proved to have exactly these effects. |
| Ingest.Run | package/bin/qualtrics_audit_helper.py:148 | The per-input loop. `RunConcat`, `FailedInputSkipped` and `RunOnlyAppends` state its properties, and `StreamEvents` is proved to have exactly these effects. |
| Ingest.Resolved | package/bin/qualtrics_audit_helper.py:162-165 | The account lookup succeeds: the input names an account and that account is configured. `InputSkipped` and `FailedInputSkipped` prove an input that is not resolved changes nothing, and `InputCommit` proves a resolved one always commits. |
| Ingest.KeyOf | package/bin/qualtrics_audit_helper.py:175 | The key of an input is `get_checkpoint_key` of its normalized name and its account name. `CheckpointKeyInjective` proves that two (normalized name, account) pairs share a key only when they are equal, provided the normalized names have no `_`. |
| Ingest.EndReading | package/bin/qualtrics_audit_helper.py:176-177 | The index of the clock reading that becomes `end_date`: one past the watermark read when the start fell back to the clock, the watermark read itself otherwise. `OpenWindow` is proved to return exactly that reading as `end`. |
| Ingest.Committed | package/bin/qualtrics_audit_helper.py:72-227 | The checkpoint collection after the commit at line 227. `NextWindowStartsAtEnd` proves the next window starts at this run's `end_date` and that every other key is unchanged; `InputCommit` proves a resolved input ends with exactly this collection. |
| Ingest.NormalizedNameShape | package/bin/qualtrics_audit_helper.py:149 | The normalized name is the part of the input name after its last `/`. It is a `/`-free suffix that starts right after a `/` unless it is the whole name, and it is the whole name when there is no `/`. |
| Ingest.StripKeeps | package/bin/qualtrics_audit_helper.py:169 | Stripping introduces no character. |
| Ingest.SegmentActivityType | package/bin/qualtrics_audit_helper.py:169 | A comma-free segment strips to its activity type: the segment without the whitespace around it, with no comma and no whitespace at either end. |
| Ingest.ActivityTypesShape | package/bin/qualtrics_audit_helper.py:168-170 | There is one activity type per comma-separated segment, in order (commas + 1). The i-th type is the i-th segment without the whitespace around it; it has no comma and no whitespace at either end. |
| Ingest.ActivityTypesDefault | package/bin/qualtrics_audit_helper.py:168-170 | An absent, empty or blank setting gives the single activity type `""`. |
| Ingest.EmittedPrefix | package/bin/qualtrics_audit_helper.py:197-214 | The i-th event is the i-th record with the activity type's sourcetype and source. Events stop exactly at the first malformed record. |
| Ingest.CombineAllAppend | package/bin/qualtrics_audit_helper.py:188-224 | Running one more activity type appends its effects. |
| Ingest.CombineAllSplit | package/bin/qualtrics_audit_helper.py:188-224 | The effects of a sequence of activity types are those before index i, then those at i, then those after. |
| Ingest.CombineAllSent | package/bin/qualtrics_audit_helper.py:188-193 | Every request of an input belongs to one of its activity types. |
| Ingest.ActivitiesRunAppend | package/bin/qualtrics_audit_helper.py:188-224 | Processing the next activity type appends exactly that activity type's requests and events. |
| Ingest.ActivityIsolation | package/bin/qualtrics_audit_helper.py:188-224 | Each activity type's effects sit between those of the earlier and later ones, whatever happened to it. |
| Ingest.FailedActivityWritesNothing | package/bin/qualtrics_audit_helper.py:105-224 | An activity type whose first page raises or is refused costs one request and writes nothing. |
| Ingest.RaisedFetchWritesNothing | package/bin/qualtrics_audit_helper.py:189-224 | A fetch that raises writes no event for that activity type. |
| Ingest.SameWindowForAllActivities | package/bin/qualtrics_audit_helper.py:176-193 | Every first-page request of an input is for one of its activity types, with its datacenter, page size 1000 and the same [start, end]. |
| Ingest.InputSkipped | package/bin/qualtrics_audit_helper.py:162-246 | An input whose account lookup raises sends, writes, saves and reads nothing. |
| Ingest.InputCommit | package/bin/qualtrics_audit_helper.py:226-227 | A resolved input commits its checkpoint and takes two clock readings past the watermark read. |
| Ingest.NextWindowStartsAtEnd | package/bin/qualtrics_audit_helper.py:174-227 | After a commit, the next window of that input starts exactly at this run's `end_date`. Every other key's document is unchanged. |
| Ingest.CheckpointIgnoresFetches | package/bin/qualtrics_audit_helper.py:188-227 | The saved checkpoint and the clock readings do not depend on the server's replies. |
| Ingest.RunConcat | package/bin/qualtrics_audit_helper.py:148 | Running two lists of inputs is running one, then the other. |
| Ingest.FailedInputSkipped | package/bin/qualtrics_audit_helper.py:148-246 | An input whose lookup raises does not stop the loop. The run equals the run without it. |
| Ingest.InputOnlyAppends | package/bin/qualtrics_audit_helper.py:148-246 | One input only appends events and requests, and leaves the checkpoints of other keys alone. |
| Ingest.RunOnlyAppends | package/bin/qualtrics_audit_helper.py:148-246 | A run only appends, and leaves alone every key no input owns. |
| Stream.EventWriter.constructor | package/bin/qualtrics_audit_helper.py:133 | The writer starts with no events. |
| Stream.EventWriter.WriteEvent | package/bin/qualtrics_audit_helper.py:201-212 | `write_event` appends exactly that event. |
| Stream.EmitRecords | package/bin/qualtrics_audit_helper.py:200-214 | The emission loop appends exactly `Emitted(records)` and counts it. |
| Stream.ProcessActivity | package/bin/qualtrics_audit_helper.py:189-224 | One activity type's `try` body has exactly the effects of `ActivityRun`, and its count is the events written. |
| Stream.ProcessActivities | package/bin/qualtrics_audit_helper.py:185-224 | The activity loop has exactly the effects of `ActivitiesRun`, with `total_events_written` its event count. |
| Stream.ProcessInput | package/bin/qualtrics_audit_helper.py:149-246 | One input's body changes store, writer, transport and clock exactly as `InputStep` describes. |
| Stream.StreamEvents | package/bin/qualtrics_audit_helper.py:133-246 | A checkpointer failure means nothing is sent, written or read. Otherwise the run changes everything exactly as `Run` over the inputs in order. |
| Stream.InputStepEffects | package/bin/qualtrics_audit_helper.py:174-227 | A resolved input's step saves `end_date` under its key and appends its activity types' effects. |
| Stream.RunAppend | package/bin/qualtrics_audit_helper.py:148 | Processing one more input steps the run once more. |

## Left out

- Logging, `logger_for_input`, the log-level lookup, `log.modular_input_start`/`end` and `log.events_ingested` are left out. Only an account lookup that raises is modelled as skipping an input. A failure of the log-level lookup (line 153) would skip the input the same way, but it is not modelled.
- `get_account_config` is left out beyond its outcome. The accounts are a map from account name to datacenter. A missing account name, or one not configured, raises and skips the input. The `api_key`, the `X-API-TOKEN` header, the `"api"` datacenter default and the credential realm are not modelled. Because the server is a function of the URL alone, two accounts with the same datacenter, activity type and window get identical replies in the model, even though each sends its own `X-API-TOKEN`; no property proved here depends on this.
- `validate_input` (which does nothing) and the unused `ACTIVITY_TYPES` constant are left out.
- HTTP details are left out: the host and path of the URL, `urlencode`, the `strftime` text of the dates, and the re-sending of `params` with every `nextPage` URL (line 105). A request is a `FirstPage(query)` or a `Link(text)`.
- `Timestamps.Encode` and `Timestamps.Decode` stand for `isoformat` and `fromisoformat`. They use a signed decimal count of microseconds rather than ISO 8601 text. Time zones, the `Z` replacement and naive-versus-aware datetimes are not modelled.
- The event's `time` (a `.timestamp()` float) is the record's instant. Its `data` is the descriptor text, not `json.dumps` output.
- Failures of the KV store itself (`ckpt.get`, `ckpt.update`) and of `write_event` are not modelled.
- Concurrency between runs is not modelled.
- The source opens a new `requests.Session()` for every input (line 182). One `Transport` stands for all of these per-input sessions. This changes nothing in the model, because session headers are not modelled and a session keeps no state the model uses.
- `Text.IsSpace` is the set of characters Python's `str.isspace` accepts. Unicode properties beyond that list are not modelled.
- FetchActivity: requires that the page chain ends within a ghost `bound`. The source's loop would run forever on an endless chain of `nextPage` links, and the model does not cover that case.
- ProcessActivity: requires the same of its activity type's page chain, for the same reason.
- ProcessActivities: requires the same of the page chain of each of its activity types over its window, for the same reason.
- ProcessInput: requires `Terminating`, for the same reason. `Terminating` asks for one bound that holds for the first-page chain of every possible query, including queries the run never sends.
- StreamEvents: requires `Terminating`, for the same reason and with the same breadth.
