# webhook-repo in Dafny

A model of the event pipeline of a small GitHub-webhook receiver (`app.py`).

- **Normaliser.** A `push` or `pull_request` delivery becomes at most one canonical event record, with these fields:
  - `request_id`
  - `author`
  - `action`: `PUSH`, `PULL_REQUEST` or `MERGE`
  - `from_branch`, `to_branch`
  - `timestamp`
- **Deduplication gate.** A record is stored only when no stored record has the same `(request_id, action)` key.
- **`format_event`.** Turns each stored document into one display sentence, or into one of its two sentinel strings. This needs two further pieces:
  - the `Z` to `+00:00` rewrite;
  - `datetime.fromisoformat` and `strftime("%d %B %Y - %I:%M %p UTC")`.
- **`get_events`.** Fetches the ten documents whose `timestamp` text sorts highest and maps the formatter over them.

The modules follow the program's parts:

| module | file | contents |
|---|---|---|
| `Wrappers` | `wrappers.dfy` | `Option` |
| `Decimal` | `decimal.dfy` | zero-padded fields, reading digits back, Python's `str(int)` and its inverse |
| `Strings` | `strings.dfy` | `str.split`, its inverse `join`, the last segment of a split, `str.replace` with a one-character pattern |
| `Timestamps` | `timestamps.dfy` | see below |
| `Events` | `events.dfy` | the record, the payload shapes, the normaliser |
| `Store` | `store.dfy` | the in-memory store, the gate, the webhook handler, batches of deliveries |
| `Formatter` | `formatter.dfy` | `format_event` |
| `Listing` | `listing.dfy` | `get_events` |
| `Scenarios` | `scenarios.dfy` | worked examples of whole deliveries |

`Timestamps` covers:

- the accepted ISO-8601 text;
- its parser and its canonical printer, which are inverse;
- the calendar checks of the `datetime` constructor;
- the display string and a reader that recovers the wall clock from it.

The webhook payload is typed:

- Each delivery is a `Payload` whose constructor plays the role of the `X-GitHub-Event` header.
- `merged_by` and its `login` may be missing, as in the source.
- A stored document read back by the formatter is a `Document` whose fields are all optional, because `format_event` must cope with malformed documents.

Three behaviours of the code worth noting:

- **The data-error sentinel.** It uses `event_data.get('request_id', 'Unknown ID')`. A document whose `request_id` is present but empty therefore prints an empty id, not `Unknown ID`.
- **The offset check.** `fromisoformat` checks the offset only as a whole: it must be strictly less than 24 hours in magnitude. The offset's minutes field is not range-checked on its own, so `+00:75` is accepted.
- **The display label.** The display shows the wall-clock fields of the parsed time, unshifted by its offset, and always ends in the fixed text `UTC`.

## Model

| member | source | states |
|---|---|---|
| Decimal.PadDecimal | app.py:48 | `%d`, `%Y`, `%I`, `%M` print a number in exactly the field width, all digits |
| Decimal.ValueOfPad | app.py:45-48 | reading a zero-padded field gives back the number that was printed |
| Decimal.PadValueOf | app.py:45-48 | every digit string is the padded form of its own value, so reading and padding are inverse |
| Decimal.NatToString | app.py:99 | `str(n)` of a natural has no leading zero and denotes `n` |
| Decimal.IntToString | app.py:99 | `str(i)` of a negative id starts with `-` followed by the digits of its magnitude |
| Decimal.IntToStringRoundTrip | app.py:99 | the id stored as `request_id` can be read back as the same integer |
| Decimal.IntToStringInjective | app.py:109 | two pull-request ids give the same `request_id` exactly when they are equal |
| Strings.Split | app.py:80 | `ref.split('/')` gives one more part than the number of `/` in the ref, and no part contains `/` |
| Strings.JoinSplit | app.py:80 | joining the parts of a split with the separator gives back the original text |
| Strings.SplitJoin | app.py:80 | splitting the join of separator-free parts gives back those parts |
| Strings.LastSegment | app.py:80 | `[-1]` of the split is the suffix after the last `/`: the whole ref if it has no `/`, otherwise the text just after a `/`, and it never contains `/` |
| Strings.ReplaceAll | app.py:45 | `replace('Z', '+00:00')` leaves no `Z`, leaves a `Z`-free text unchanged, and turns a lone `Z` into `+00:00` |
| Strings.ReplaceAllAppend | app.py:45 | the replacement distributes over concatenation |
| Timestamps.ValidOffset | app.py:45 | an offset is accepted below 24 hours in total: any two-digit minutes field below hour 23, and at hour 23 only minutes below 60 |
| Timestamps.Valid | app.py:45 | an accepted date has at most 31 days, and at most 28 in February unless it is the 29th of a leap year |
| Timestamps.DaysInMonth | app.py:45 | months have 28 to 31 days, and February has 29 exactly in Gregorian leap years |
| Timestamps.LeapDay | app.py:45 | 29 February of a year is a valid date exactly when the year is a leap year |
| Timestamps.Parse | app.py:45 | whatever `fromisoformat` accepts is a valid date-time |
| Timestamps.ParseShow | app.py:45 | every valid date-time is accepted in its canonical text and parsed back to itself |
| Timestamps.ParseSound | app.py:45 | an accepted text is exactly the canonical text of what it parses to |
| Timestamps.ParseIff | app.py:45 | a text parses to a date-time if and only if the date-time is valid and the text is its canonical form |
| Timestamps.MonthNumber | app.py:48 | a recognised `%B` name names its month |
| Timestamps.MonthNumberOfName | app.py:48 | each of the twelve `%B` names is read back as its own month |
| Timestamps.Hour12 | app.py:48 | `%I` lies in 1..12, and together with the meridiem it recovers the 24-hour hour |
| Timestamps.Meridiem | app.py:48 | `%p` is `AM` exactly before noon, otherwise `PM` |
| Timestamps.Render | app.py:48 | the display is 23 characters longer than the month name, ends in the fixed text ` UTC`, and its first two digits read back as the day |
| Timestamps.ReadDisplay | app.py:48 | the reader accepts only a 12-hour field 01 to 12 with `AM`/`PM`, so every hour it reads back is below 24 and every month is 1 to 12 |
| Timestamps.ReadDisplayHour12 | app.py:48 | in any display the reader accepts, the hour field is the `%I` form of the hour read back, and `PM` appears exactly from noon on |
| Timestamps.ReadRender | app.py:48 | the display string determines the parsed year, month, day, hour and minute |
| Timestamps.NormalizeZ | app.py:45 | the rewritten timestamp has no `Z`, and a timestamp without `Z` is unchanged |
| Timestamps.NormalizeZAround | app.py:45 | each `Z` is replaced in place by `+00:00`, the text on either side being rewritten independently |
| Timestamps.ParseTimestamp | app.py:45 | a parsed timestamp is valid and its canonical text is the rewritten input |
| Timestamps.DisplayTimestamp | app.py:45-48 | a timestamp is displayed exactly when it parses, and the display reads back to the parsed wall clock |
| Timestamps.ZuluIsUtc | app.py:40-45 | a trailing `Z` is treated exactly as `+00:00` |
| Timestamps.DisplayIgnoresOffset | app.py:48 | two date-times that differ only in their offset display the same string |
| Timestamps.ShowHasNoZ | app.py:45 | a canonical timestamp contains no `Z`, so the rewrite leaves it unchanged |
| Events.MergeAuthor | app.py:110 | the merge is credited to `merged_by.login`, or to `Unknown` when either is missing |
| Events.Normalize | app.py:74-115 | the normaliser's full contract, summarised after this table |
| Events.PullRequestKeys | app.py:97-115 | two pull-request records of the same kind share a dedup key exactly when their pull-request ids are equal |
| Events.OpenedAndMergedDiffer | app.py:97-115 | opening and merging a pull request never collide in the gate |
| Store.FindByKey | app.py:119 | the lookup finds a record exactly when one with the key is stored, and what it finds is stored under that key |
| Store.Gate | app.py:117-123 | a duplicate key leaves the store unchanged; otherwise the record is appended; either way the key is then stored and keys stay unique |
| Store.HandleWebhook | app.py:66-125 | see the summary after this table |
| Store.DeliverIdempotent | app.py:117-123 | delivering an event twice has the same effect as delivering it once |
| Store.KeySetDeliver | app.py:117-123 | one delivery adds exactly the key of its record, if any, to the stored keys |
| Store.DeliverAllInvariant | app.py:117-123 | a batch only appends, keeps keys unique, and the stored keys afterwards are the old keys plus the batch's keys |
| Store.DeliverAllCovered | app.py:117-123 | a batch whose keys are all stored changes nothing |
| Store.RedeliverBatch | app.py:117-123 | redelivering a whole batch stores nothing new |
| Formatter.DataError | app.py:62 | the data-error sentinel is the fixed prefix followed by the `request_id`, or `Unknown ID` when it is absent, and it is never the missing-timestamp sentinel |
| Formatter.Sentence | app.py:50-57 | a known action's sentence starts with the author and ends with the display time; any other action gives `Unknown action: ...` ending with the author |
| Formatter.FormatEvent | app.py:25-62 | see the summary after this table |
| Formatter.FormatStoredRecord | app.py:36-57 | a record stored by the handler never takes the missing-key or unknown-action path, and is shown with its own action's sentence when its timestamp parses |
| Formatter.FormatNormalizedPush | app.py:50-51 | a push delivery with a displayable timestamp is shown as `pusher pushed to <last ref segment> on <time>` |
| Formatter.FormatDependsOnDisplay | app.py:45-57 | two non-empty timestamps with the same display outcome format the document alike |
| Formatter.FormatIgnoresOffset | app.py:45-48 | changing only the offset of a stored timestamp does not change the formatted sentence |
| Formatter.FormatZulu | app.py:40-45 | a document stamped `...Z` formats like the same document stamped `...+00:00` |
| Listing.TextLeqReflexive | app.py:132 | every timestamp text sorts level with itself |
| Listing.TextLeqTotal | app.py:132 | the store's string order is total: any two timestamp texts are ordered one way or the other |
| Listing.TextLeqAntisymmetric | app.py:132 | two texts ordered both ways are equal |
| Listing.TextLeqTransitive | app.py:132 | the string order is transitive |
| Listing.TextLeqCommonPrefix | app.py:132 | past a shared prefix, two texts are ordered as their remainders are |
| Listing.FirstDifference | app.py:132 | the first differing character decides the order, strictly |
| Listing.NewestFirst | app.py:132 | the first fetched document has the greatest timestamp of the whole store |
| Listing.FormatAll | app.py:134 | one string per document, in order, each being `format_event` of that document |
| Listing.GetEvents | app.py:132-134 | at most ten strings, exactly ten when the store holds ten or more, one per fetched document in order, each being `format_event` of that document |
| Listing.TextOrderIsNotTime | app.py:132 | `2024-03-01T15:00:00+05:30` (09:30 UTC) sorts strictly above `2024-03-01T10:00:00Z` (10:00 UTC) |
| Listing.UtcBelowIst | app.py:132 | the same comparison on the stored `timestamp` values |
| Listing.TwoListed | app.py:132 | of two stored documents, the one whose timestamp sorts strictly higher is fetched first |
| Listing.ListedByText | app.py:132 | with those two stamps, the earlier event is listed first, because the order is textual, not chronological |
| Scenarios.DisplayMarchFirst | app.py:45-48 | `2024-03-01T10:15:00Z` is shown as `01 March 2024 - 10:15 AM UTC` |
| Scenarios.DisplayMarchSecond | app.py:45-48 | `2024-03-02T08:00:00+00:00` is shown as `02 March 2024 - 08:00 AM UTC` |
| Scenarios.FebThirtyRejected | app.py:45 | `2024-02-30T10:00:00Z` does not parse, so its document takes the data-error path |
| Scenarios.NestedBranch | app.py:80 | the ref `refs/heads/feat/x` names the branch `x` |
| Scenarios.BranchOfRef | app.py:80 | the branch of `<prefix>/<branch>` is `<branch>` whenever the branch has no `/` |
| Scenarios.PushStored | app.py:79-91 | a push to `refs/heads/main` with a head commit is stored as a PUSH to `main` keyed by the `after` hash |
| Scenarios.PushShown | app.py:50-51 | that record is shown as `alice pushed to main on 01 March 2024 - 10:15 AM UTC` |
| Scenarios.OpenedStored | app.py:97-105 | an opened pull request 42 is stored with `request_id` `"42"` and both branches |
| Scenarios.OpenedShown | app.py:52-53 | that record is shown as `bob submitted a pull request from feature-x to main on 02 March 2024 - 08:00 AM UTC` |
| Scenarios.ClosedUnmergedScenario | app.py:107 | closing without merging stores nothing, and the handler still answers success |
| Scenarios.MergeByUnknownScenario | app.py:110 | a merge without `merged_by` is credited to `Unknown` |
| Scenarios.MissingTimestampScenario | app.py:36-38 | a document with author and action but no timestamp gives `Event with missing timestamp` |
| Scenarios.MissingAuthorScenario | app.py:31-62 | a document with no author and no id gives `Could not display event due to a data error: Unknown ID`, even though its timestamp is missing too |
| Scenarios.TwelveHourClock | app.py:48 | midnight is `12 AM`, noon is `12 PM`, and 13:00 is `01 PM` |

`Events.Normalize` (app.py:74-115):

- A delivery yields no record exactly when it is ignored:
  - a push without a head commit;
  - a pull request that is neither opened nor closed-and-merged;
  - any other event type.
- A push is stored with:
  - its pusher as author;
  - the `after` hash as `request_id`;
  - an empty from-branch;
  - the last ref segment as to-branch;
  - the head-commit timestamp.
- A pull request's `request_id` reads back as its id. Its branches are the head and base refs.
- An opened pull request is credited to its user and stamped with `created_at`.
- A merge is credited to `MergeAuthor` and stamped with `merged_at`.

`Store.HandleWebhook` (app.py:66-125):

- A push without a head commit is answered `ignored` and changes nothing.
- Every other delivery is answered `success`.
- A delivery stores its normalised record exactly when the record's key is new.
- Keys stay unique.

`Formatter.FormatEvent` (app.py:25-62):

- A missing author or action gives the data-error sentinel.
- An absent or empty timestamp then gives the missing-timestamp sentinel.
- An unparseable timestamp gives the data-error sentinel.
- Otherwise the action picks:
  - the PUSH sentence;
  - the PULL_REQUEST sentence;
  - the MERGE sentence;
  - for any other action, the unknown-action sentence.

## Left out

- **HTTP and JSON.**
  - The Flask routes, request parsing and the JSON replies are not modelled. The handler's two replies are the `Status` values.
  - The index page and the `MONGO_URI` start-up check are not modelled.
- **MongoDB.**
  - The collection is a sequence of records, `find_one` is `FindByKey`, and `insert_one` appends.
- Listing.GetEvents: the query `find().sort('timestamp', DESCENDING).limit(10)` is not computed. `GetEvents` takes its result as an input, and `Listing.Recent` states what the query guarantees about that result:
  - the result is drawn from the store;
  - it holds `min(10, |store|)` documents;
  - it is in non-increasing timestamp order;
  - no document left out sorts above the last one fetched.
  - Documents with equal timestamps may come in any order.
  - Timestamps that are present but not strings are not modelled, because the store's order across BSON types is out of scope.
- **Concurrency.** Two concurrent deliveries of the same event can both pass the check before either inserts. The model delivers one event at a time.
- **Logging.** The `print` calls are not modelled.
- **`merged_by: null`.** GitHub sends `"merged_by": null` for some merges. `pr_data.get('merged_by', {})` then returns `None`, and `.get('login', ...)` raises `AttributeError` at app.py:110, so the request fails. In `Events.MergeAuthor`, `None` means the key is absent, which gives `Unknown`. The crash is not modelled.
- **Malformed payloads.** A payload that lacks a key the handler indexes directly raises `KeyError`, and the request fails. Such keys include `pusher.name`, `ref`, `after`, `pull_request.id` and `head.ref`. The typed `Payload` always has these fields, so that failure is not modelled.
- **Python truthiness.** A `head_commit` that is present but empty, and a non-boolean `merged`, are modelled only through `Option` values.
- **Non-string values.** A stored field that is present but not a string is not modelled: an `author` of `None`, or a non-string `timestamp`. Such a value would print as `None` in a sentence, or crash `format_event` with an uncaught `AttributeError`.
- **Timestamp grammar.** `Timestamps.Parse` accepts `YYYY-MM-DDTHH:MM:SS`, then an optional `.digits` fraction, then an optional `+HH:MM` or `-HH:MM` offset.
  - This covers the forms GitHub sends.
  - Other texts that some Python versions accept take the data-error path in the model:
    - a date without a time;
    - a separator other than `T`;
    - a `,` before the fraction;
    - offsets written `+HH`, `+HHMM` or with seconds;
    - a time without seconds, as in `2024-03-01T10:15Z`;
    - the basic format without separators, as in `20240301T101500`;
    - week dates and ordinal dates.
  - This list is not exhaustive.
  - Python versions also differ in how many fraction digits they accept; the model accepts any non-empty run.
- **Year padding.** `Timestamps.Render` pads the year to four digits. glibc's `%Y` does not pad years below 1000.
- **Locale.** The month names and `AM`/`PM` are those of the C locale.
