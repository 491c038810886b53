# Dropbox developer samples: upload planning, activity-log conversion, team listing

This Dafny project models the deterministic bookkeeping inside three Dropbox sample
scripts and proves properties of it. The Dropbox API, HTTP and the local machine are
replaced by values: pages of results the server returns, session ids it hands out,
file contents as byte sequences and directory listings as lists of entries.

- `PerformantUpload` (`performant_upload.dfy`) models the concurrent upload sessions
  of a local folder:
  - which credential the client is built from;
  - which files of the folder are uploaded, in sorted order;
  - how one file is cut into upload-session appends at consecutive offsets, with
    the open file as a class whose position `Read` advances;
  - the finish argument that commits a file;
  - how a batch is checked, how file `i` is paired with session id `i`, how the
    finish entries and the uploaded byte count are accumulated, and how the
    finish-batch result is dispatched.
- `CefParser` (`cef_parser.dfy`) models the audit-log to CEF converter:
  - `cleanData`;
  - the flattening of each event in `formatEvents`;
  - `buildCEFEvent` with its severity table and the CEF header and extension
    templates;
  - the syslog framing of `sendEvents`;
  - the request bodies of `getEvents` and its recursive page aggregation. The
    cursor it returns is that of the first page.
- `TeamContents` (`team_contents.dfy`) models `list_all_contents`:
  - it drains the namespace list page by page into a set (a class whose
    `HandleNamespacesResult` adds to it);
  - it sorts the ids numerically;
  - it drains the recursive listing of each namespace in that order, recording the
    calls it makes and the lines it prints.
- Shared modules:
  - `Wrappers` holds `Option` and `Result`.
  - `PyText` holds the Python string operations the scripts use: `strip`,
    decimal formatting and `sorted` on strings.
  - `PyValue` holds decoded JSON values, dict lookup and `str()`.
  - `Paging` holds the generic page drain: the calls it issues and the items it
    collects.
- Readers that the scripts do not have: `PyText.SplitAt`, `PyText.DecimalToNat`,
  `CefParser.SplitFields` and `CefParser.ParseFrame` read a CEF line or a syslog
  message back. They exist only so that the round-trip lemmas can state that the
  output is unambiguous: the header fields and the priority can be recovered.

## Model

| member | source | states |
|---|---|---|
| PyText.Truthy | Blog/performant_upload/performant_upload.py:24-31 | definition of Python truthiness of an optional configuration string: present and non-empty |
| PerformantUpload.GetClient | Blog/performant_upload/performant_upload.py:21-42 | fails with no credentials exactly when neither token is non-empty; a non-empty refresh token wins, and it fails without a non-empty app key; otherwise the access token is used |
| PerformantUpload.CollectedPaths | Blog/performant_upload/performant_upload.py:51-56 | a path is kept exactly when it joins the folder with the name of a regular file that is not `.DS_Store`, `.localized` or `.gitignore` |
| PerformantUpload.JoinPath | Blog/performant_upload/performant_upload.py:52-54 | definition of `os.path.join` on POSIX paths: an absolute name replaces the folder, otherwise exactly one `/` separates the folder and the name |
| PerformantUpload.CollectFiles | Blog/performant_upload/performant_upload.py:51-57 | the kept paths, sorted, as a permutation of the filtered list |
| PyText.SortStrings | Blog/performant_upload/performant_upload.py:51-57 | `sorted` on strings: the result is in lexicographic order and a permutation of the input |
| PyText.InsertString | Blog/performant_upload/performant_upload.py:51-57 | inserting into a sorted list keeps it sorted and adds exactly the one element |
| PyText.InsertFront | Blog/performant_upload/performant_upload.py:51-57 | an element no greater than the head of a sorted list goes in front of it and keeps the list sorted |
| PyText.InsertBehind | Blog/performant_upload/performant_upload.py:51-57 | an element greater than the head goes behind it: the head followed by a sorted list holding the rest and the element is sorted and has exactly those elements |
| PyText.LexLeTotal | Blog/performant_upload/performant_upload.py:51-57 | the string order that `sorted` uses relates any two strings |
| PyText.LexLeTransitive | Blog/performant_upload/performant_upload.py:51-57 | the string order is transitive |
| PyText.LexLeAntisymmetric | Blog/performant_upload/performant_upload.py:51-57 | the string order is antisymmetric |
| PerformantUpload.StripLeadingSlashes | Blog/performant_upload/performant_upload.py:70 | `lstrip("/")`: removes exactly the leading run of slashes, leaving a suffix that does not start with one |
| PerformantUpload.Basename | Blog/performant_upload/performant_upload.py:69 | the suffix after the last `/`, which holds no `/` |
| PerformantUpload.BasenameAfterSlash | Blog/performant_upload/performant_upload.py:69 | the base name of `prefix/name` is `name` when `name` holds no `/` |
| PerformantUpload.CommitPath | Blog/performant_upload/performant_upload.py:111-114 | definition of the commit path: `/`, the remote folder without its leading slashes, `/`, the local file's base name |
| PerformantUpload.CommitPathShape | Blog/performant_upload/performant_upload.py:111-114 | the commit path starts with `/`, has no doubled slash after it when the remote folder is not just slashes, and has the local file's base name |
| PerformantUpload.ReadLength | Blog/performant_upload/performant_upload.py:96 | definition of the byte count `read(size)` returns: everything left for a negative size, else the smaller of the size and what is left |
| PerformantUpload.LocalFile.Open | Blog/performant_upload/performant_upload.py:74 | a freshly opened file holds the content with its position at 0 |
| PerformantUpload.LocalFile.Read | Blog/performant_upload/performant_upload.py:96 | `read(size)` returns the next `min(size, bytes left)` bytes, or all of them for a negative size, and moves the position past them |
| PerformantUpload.PlanFrom | Blog/performant_upload/performant_upload.py:93-99 | definition of the appends the read loop issues from a position: one per read, at the offset before the read, carrying the bytes read, and closing the session when it reaches the end |
| PerformantUpload.AppendPlan | Blog/performant_upload/performant_upload.py:89-102 | definition of the appends of a whole file: the read loop from offset 0 for a non-empty file, one closing append without data at offset 0 for an empty one |
| PerformantUpload.PlanFromUnfold | Blog/performant_upload/performant_upload.py:93-99 | proof step: one pass of the read loop issues the append at the current position and continues from the new position |
| PerformantUpload.PlanFromPayload | Blog/performant_upload/performant_upload.py:93-99 | the appends from a position on carry exactly the rest of the file |
| PerformantUpload.AppendPlanTiles | Blog/performant_upload/performant_upload.py:89-102 | the chunks of a file, concatenated, are the file's bytes |
| PerformantUpload.PlanFromShape | Blog/performant_upload/performant_upload.py:93-99 | the appends are back to back, inside the file, each non-empty, all on the session, and only the last closes it |
| PerformantUpload.AppendPlanShape | Blog/performant_upload/performant_upload.py:89-102 | the appends start at offset 0, are back to back, end at the file size, and only the last closes; an empty file gets one empty closing append at offset 0; a non-empty file gets no empty chunk |
| PerformantUpload.PlanFromAt | Blog/performant_upload/performant_upload.py:93-97 | with chunk size `c > 0`, append `i` sits at offset `i * c` and carries `min(c, n - offset)` bytes |
| PerformantUpload.PlanFromCount | Blog/performant_upload/performant_upload.py:93-97 | the number `m` of appends is the least with `m * c >= n` |
| PerformantUpload.ExactMultipleChunks | Blog/performant_upload/performant_upload.py:93-97 | a file of `k * c` bytes is sent as exactly `k` full chunks at offsets `0, c, ..., (k-1) * c`, with no trailing empty append |
| PerformantUpload.NegativeChunkSizeReadsAll | Blog/performant_upload/performant_upload.py:96 | a negative chunk size reads the whole file as one closing append |
| PerformantUpload.UploadSessionAppends | Blog/performant_upload/performant_upload.py:64-114 | the loop over the file position issues exactly the append plan, and the finish argument's offset is the file size and its path the commit path |
| PerformantUpload.BatchSizeAssertionAsWritten | Blog/performant_upload/performant_upload.py:124 | definition of the batch-size assertion as written: the length of the finish-entry list is at most 1000 |
| PerformantUpload.BatchSizeAcceptable | Blog/performant_upload/performant_upload.py:124 | definition of the intended batch-size check: at most 1000 files in the batch |
| PerformantUpload.OversizedBatchPassesAsWritten | Blog/performant_upload/performant_upload.py:121-124 | the batch-size assertion, which measures the still-empty entry list, passes for 1001 files |
| PerformantUpload.ChunkSizeAssertionAsWritten | Blog/performant_upload/performant_upload.py:125-126 | definition of the chunk-size assertion as written: the chunk size is a multiple of 4 MiB, with Python's non-negative remainder |
| PerformantUpload.ValidChunkSize | Blog/performant_upload/performant_upload.py:125-126 | definition of the intended chunk-size check: the assertion as written, and a size other than 0 |
| PerformantUpload.ZeroChunkSizePassesAsWritten | Blog/performant_upload/performant_upload.py:125-126 | a chunk size of 0 passes the multiple-of-4-MiB assertion, yet a read of 0 bytes never advances the position |
| PerformantUpload.ValidChunkSizeAdvances | Blog/performant_upload/performant_upload.py:93-96 | under the intended chunk-size check, every read makes progress; a positive chunk size reads at most that many bytes, a negative one reads the rest of the file |
| PerformantUpload.NegativeMultipleAccepted | Blog/performant_upload/performant_upload.py:125-126 | a negative multiple of 4 MiB passes the check, as in the source, and sends a non-empty file as one closing append |
| PerformantUpload.TotalBytes | Blog/performant_upload/performant_upload.py:144-146 | definition of the uploaded byte count: the sizes of the files added up in file order |
| PerformantUpload.TotalBytesPrefix | Blog/performant_upload/performant_upload.py:144-146 | one more finished file adds its size to the running byte count |
| PerformantUpload.SettledStatus | Blog/performant_upload/performant_upload.py:153-160 | the first poll that is no longer in progress, and none exactly when every poll is in progress |
| PerformantUpload.SettledStatusSkip | Blog/performant_upload/performant_upload.py:153-160 | proof step: a poll still in progress does not change which poll settles the job |
| PerformantUpload.FinishOutcome | Blog/performant_upload/performant_upload.py:149-164 | definition of the finish-batch dispatch: a complete launch gives its entries, an unknown one an error, an async job the outcome of its first settled poll |
| PerformantUpload.AwaitFinishBatch | Blog/performant_upload/performant_upload.py:149-164 | a complete launch gives its entries, an unknown launch fails, and an async job gives the entries of the first settled poll; success exactly in those cases |
| PerformantUpload.UploadSessions | Blog/performant_upload/performant_upload.py:136-146 | file `i` goes through session id `i` with its append plan; the finish entries are in file order; the byte count is the total size of the files |
| PerformantUpload.UploadFiles | Blog/performant_upload/performant_upload.py:117-175 | each failed check yields its error, the multiple-of-4-MiB check as written and then the zero chunk size; otherwise the batch succeeds exactly when the finish does, and then every file was uploaded in order under its own session, the byte count is the total size, and the commits are those of the finish |
| PyText.IsSpace | Blog/Convert-activity-log-to-CEF-events/cefParser.py:36 | definition of `str.isspace` on one character: the ASCII whitespace and separator characters and the Unicode space separators |
| PyText.Strip | Blog/Convert-activity-log-to-CEF-events/cefParser.py:36 | `strip()`: the result has no surrounding whitespace and is the input with a leading and a trailing whitespace run removed |
| PyText.LeadingSpaces | Blog/Convert-activity-log-to-CEF-events/cefParser.py:36 | the length of the leading whitespace run: all whitespace, and followed by a non-whitespace character or the end |
| PyText.TrailingEnd | Blog/Convert-activity-log-to-CEF-events/cefParser.py:36 | where the trailing whitespace run of a range starts: all whitespace after it, and a non-whitespace character or the range start before it |
| PyText.StripIdempotent | Blog/Convert-activity-log-to-CEF-events/cefParser.py:36 | stripping twice is stripping once |
| PyText.StripTrimmed | Blog/Convert-activity-log-to-CEF-events/cefParser.py:36 | a string with no surrounding whitespace is unchanged by stripping |
| PyValue.Repr | Blog/Convert-activity-log-to-CEF-events/cefParser.py:36 | definition of `repr()` of a decoded value: `None`, `True`/`False`, decimal integers, quoted strings, lists in brackets and dicts in braces, items separated by `, ` |
| PyValue.StrOf | Blog/Convert-activity-log-to-CEF-events/cefParser.py:36 | definition of `str()`: a string is itself, anything else its `repr()` |
| PyValue.DictStr | Blog/Convert-activity-log-to-CEF-events/cefParser.py:36-41 | `str()` of a dict has no surrounding whitespace and is `{}` exactly when the dict is empty |
| CefParser.CleanData | Blog/Convert-activity-log-to-CEF-events/cefParser.py:35-42 | the result has no surrounding whitespace and is never `{}`; it is empty exactly when the stripped text is empty or `{}`, and otherwise it is the stripped text |
| CefParser.CleanDataPassesThrough | Blog/Convert-activity-log-to-CEF-events/cefParser.py:37-39 | a trimmed string other than `{}` comes out unchanged, so `\` and `=` are not escaped |
| CefParser.CleanDataIdempotent | Blog/Convert-activity-log-to-CEF-events/cefParser.py:35-42 | cleaning a cleaned value changes nothing |
| CefParser.CleanDict | Blog/Convert-activity-log-to-CEF-events/cefParser.py:40-41 | a dict cleans to the empty string exactly when it is empty, otherwise to its `str()` |
| CefParser.SeverityCoversChoices | Blog/Convert-activity-log-to-CEF-events/cefParser.py:147-148 | the severity table has an entry for exactly the 20 accepted categories, and every severity is at most 9 |
| PyValue.Lookup | Blog/Convert-activity-log-to-CEF-events/cefParser.py:53-55 | a dict lookup finds a value exactly when the key is present |
| PyValue.LookupFound | Blog/Convert-activity-log-to-CEF-events/cefParser.py:53-55 | the value found is stored under the key looked up |
| PyValue.HasKeyCons | Blog/Convert-activity-log-to-CEF-events/cefParser.py:53-55 | proof step: a dict holds a key exactly when its first field or one of the rest has it |
| CefParser.Index | Blog/Convert-activity-log-to-CEF-events/cefParser.py:53-55 | `v[key]` succeeds exactly on a dict holding the key; otherwise it raises KeyError, or a type error on a non-dict |
| CefParser.GetOr | Blog/Convert-activity-log-to-CEF-events/cefParser.py:64-65 | `d.get(key, default)` is the stored value when the key is present, otherwise the default |
| CefParser.Get | Blog/Convert-activity-log-to-CEF-events/cefParser.py:59-61 | `.get` succeeds exactly on a dict |
| CefParser.At | Blog/Convert-activity-log-to-CEF-events/cefParser.py:53-58 | `event[key]` on a flattened event succeeds exactly when the key is present |
| CefParser.ActorInfo | Blog/Convert-activity-log-to-CEF-events/cefParser.py:104 | definition of `actor.get('user', actor.get('admin'))`: the user details, else the admin details, else `None` |
| CefParser.AddField | Blog/Convert-activity-log-to-CEF-events/cefParser.py:99-104 | copying a header fails exactly when it is the actor and the actor has no `.tag` |
| CefParser.Flatten | Blog/Convert-activity-log-to-CEF-events/cefParser.py:97-104 | definition of the header loop: the fields copied in the event's order, each actor field adding `actor.tag` and `actor_info`, stopping at the first error |
| CefParser.FlattenStep | Blog/Convert-activity-log-to-CEF-events/cefParser.py:97-104 | copying one more header extends the flattened prefix by that header |
| CefParser.FlattenFails | Blog/Convert-activity-log-to-CEF-events/cefParser.py:99-104 | flattening fails exactly when some actor field cannot be subscripted with `.tag` |
| CefParser.FlattenFailurePersists | Blog/Convert-activity-log-to-CEF-events/cefParser.py:99-104 | once a prefix of the headers fails to flatten, the whole event fails with the same error |
| CefParser.FlattenKeys | Blog/Convert-activity-log-to-CEF-events/cefParser.py:99-104 | the flattened event has the event's keys, plus `actor.tag` and `actor_info` exactly when the event has an actor |
| CefParser.FlattenCopies | Blog/Convert-activity-log-to-CEF-events/cefParser.py:100 | for an event with distinct keys and no `actor.tag` or `actor_info` key of its own, every original key/value pair is copied unchanged |
| CefParser.FlattenActor | Blog/Convert-activity-log-to-CEF-events/cefParser.py:102-104 | for an event with distinct keys and no `actor.tag` or `actor_info` key of its own, `actor.tag` is the actor's `.tag`, and `actor_info` is its `user` details, else its `admin` details, else `None` |
| CefParser.ReceiptTime | Blog/Convert-activity-log-to-CEF-events/cefParser.py:56 | the timestamp converts exactly when it is a string the date parser accepts |
| CefParser.SeverityFor | Blog/Convert-activity-log-to-CEF-events/cefParser.py:74 | `severity[category]` succeeds exactly for a category in the table, giving its severity, at most 9 |
| CefParser.BasicsOf | Blog/Convert-activity-log-to-CEF-events/cefParser.py:53-58 | reads the type's description and tag, the category's tag, the converted timestamp, the details and the actor, and succeeds exactly when all are there |
| CefParser.OriginOf | Blog/Convert-activity-log-to-CEF-events/cefParser.py:59-61 | the origin defaults to `{}` and the IP address to `''`; a present origin gives its geo location's `ip_address`, each level defaulting; it fails exactly when a present origin or geo location is not a dict |
| CefParser.MemberOf | Blog/Convert-activity-log-to-CEF-events/cefParser.py:63-68 | for an `admin` or `user` actor, `duser`/`duid` are the details' `email`/`team_member_id` (default `''`); for any other actor both are empty |
| CefParser.BuildCefEvent | Blog/Convert-activity-log-to-CEF-events/cefParser.py:52-75 | conversion succeeds exactly for convertible events; `rt` and `end` carry the same formatted timestamp; the category is in the severity table and the severity is the category's; `duser`/`duid` follow the actor kind |
| CefParser.BuildCefEventFields | Blog/Convert-activity-log-to-CEF-events/cefParser.py:52-75 | on success, the class id, name and category are the `str()` of their lookups; details, actor, assets and origin are their `cleanData`, an absent assets or origin giving empty fields; `src` is the `str()` of the origin's geo location `ip_address`, empty without an origin |
| CefParser.Extension | Blog/Convert-activity-log-to-CEF-events/cefParser.py:70-72 | definition of the extension template: `duser`, `duid`, `cat`, `rt`, `end`, `cs1`..`cs4` with their labels and `src`, in the template's order, separated by spaces |
| CefParser.SplitFields | Blog/Convert-activity-log-to-CEF-events/cefParser.py:151 | reader for the round-trip lemmas, not in the script: splitting off `n` fields gives `n` fields without `|` |
| CefParser.SplitJoinedFields | Blog/Convert-activity-log-to-CEF-events/cefParser.py:151 | fields without `|`, joined by `|`, split back into themselves and the tail |
| CefParser.JoinSevenFields | Blog/Convert-activity-log-to-CEF-events/cefParser.py:151 | seven header fields joined by `|` before the extension |
| CefParser.Header | Blog/Convert-activity-log-to-CEF-events/cefParser.py:151-155 | definition of the seven header fields: the fixed version, vendor, product and device version, then the class id, the name and the severity in decimal |
| CefParser.Render | Blog/Convert-activity-log-to-CEF-events/cefParser.py:73-74 | definition of the CEF line: the header fields and the extension joined by `|` |
| CefParser.RenderSpelledOut | Blog/Convert-activity-log-to-CEF-events/cefParser.py:73-74 | the line is `CEF:0`, `Dropbox`, `Dropbox Activity Log`, `1`, the class id, the name and the severity, then the extension, joined by `|` |
| CefParser.RenderHeader | Blog/Convert-activity-log-to-CEF-events/cefParser.py:151-155 | when the class id and name hold no `|`, the line splits back into its seven header fields (the first four fixed) and its extension |
| CefParser.HeaderConstants | Blog/Convert-activity-log-to-CEF-events/cefParser.py:151-155 | the fixed header fields are `CEF:0`, `Dropbox`, `Dropbox Activity Log` and `1`, none holding a `|` |
| CefParser.CefOf | Blog/Convert-activity-log-to-CEF-events/cefParser.py:96-106 | definition of one event's conversion: a dict is flattened, built into a CEF event and rendered, and the first error ends it |
| CefParser.CefOfSucceeds | Blog/Convert-activity-log-to-CEF-events/cefParser.py:94-108 | an event converts exactly when it is a dict that flattens into a convertible event, and its line then splits back into the event's header and extension |
| CefParser.FormatEvent | Blog/Convert-activity-log-to-CEF-events/cefParser.py:96-107 | the header loop and the conversion of one event give that event's CEF line or the error it raises |
| CefParser.Conversions | Blog/Convert-activity-log-to-CEF-events/cefParser.py:96-106 | one conversion per event, in input order |
| CefParser.Collect | Blog/Convert-activity-log-to-CEF-events/cefParser.py:94-108 | definition of the result of `formatEvents`: one single-line list per conversion, in order, or the first error |
| CefParser.CollectStep | Blog/Convert-activity-log-to-CEF-events/cefParser.py:96-107 | one more event appends its single-line list, or ends the call with its error |
| CefParser.CollectFailurePersists | Blog/Convert-activity-log-to-CEF-events/cefParser.py:94-108 | once an event fails, the whole call fails with that error |
| CefParser.CollectSucceeds | Blog/Convert-activity-log-to-CEF-events/cefParser.py:94-108 | the call succeeds exactly when every event converts |
| CefParser.CollectLines | Blog/Convert-activity-log-to-CEF-events/cefParser.py:94-108 | on success there is one single-line list per event, in input order |
| CefParser.CollectFirstFailure | Blog/Convert-activity-log-to-CEF-events/cefParser.py:94-108 | on failure the error is that of the first event that failed |
| CefParser.FormatEvents | Blog/Convert-activity-log-to-CEF-events/cefParser.py:94-108 | the loop over the events computes exactly the collected conversions |
| PyText.NatToDecimal | Blog/Convert-activity-log-to-CEF-events/cefParser.py:90 | `%d` of a natural number: a non-empty digit string without leading zeros |
| PyText.DecimalRoundTrip | Blog/Convert-activity-log-to-CEF-events/cefParser.py:90 | reading the decimal digits back gives the number |
| PyText.SplitAt | Blog/Convert-activity-log-to-CEF-events/cefParser.py:90 | reader for the round-trip lemmas, not in the script: splitting at the first separator gives a separator-free head and the rest |
| PyText.SplitAtJoined | Blog/Convert-activity-log-to-CEF-events/cefParser.py:90 | splitting `a + sep + b` at `sep`, with no `sep` in `a`, gives back `a` and `b` |
| CefParser.SyslogFrame | Blog/Convert-activity-log-to-CEF-events/cefParser.py:86-90 | definition of a syslog message: the priority `6 + 3 * 8` in decimal between `<` and `>`, then the line |
| CefParser.SyslogFrameRoundTrip | Blog/Convert-activity-log-to-CEF-events/cefParser.py:86-90 | every message is `<30>` and the text, and reading it back gives facility 3 (daemon), severity 6 (informational) and the text |
| CefParser.SendEvents | Blog/Convert-activity-log-to-CEF-events/cefParser.py:85-91 | one datagram per event, in order, framing the event's line |
| CefParser.TimeRange | Blog/Convert-activity-log-to-CEF-events/cefParser.py:15-20 | a time object exists exactly when a start or an end was given; its keys are exactly `start_time` and `end_time` for those given, holding them |
| PyValue.HasKeyAppend | Blog/Convert-activity-log-to-CEF-events/cefParser.py:11-20 | a dict built in two parts holds a key exactly when one of the parts does |
| PyValue.LookupAppend | Blog/Convert-activity-log-to-CEF-events/cefParser.py:11-20 | a key of a dict built in two parts is found in the first part first, then in the second |
| PyValue.DistinctKeysAppend | Blog/Convert-activity-log-to-CEF-events/cefParser.py:11-20 | adding keys that are not yet present keeps the keys distinct |
| PyValue.LookupAt | Blog/Convert-activity-log-to-CEF-events/cefParser.py:11-20 | with distinct keys, the value found under a key is the one stored with it |
| CefParser.InitialBody | Blog/Convert-activity-log-to-CEF-events/cefParser.py:11-20 | definition of the first body: the limit, then the category when one is given, then the time object when a start or an end was given |
| CefParser.KeysSingle | Blog/Convert-activity-log-to-CEF-events/cefParser.py:9 | a one-field dict has exactly its key |
| CefParser.KeysAppend | Blog/Convert-activity-log-to-CEF-events/cefParser.py:11-20 | the keys of a dict built in two parts are those of both parts |
| CefParser.InitialBodyKeys | Blog/Convert-activity-log-to-CEF-events/cefParser.py:11-20 | the first body has distinct keys, and its keys are exactly `limit`, `category` when one is given and `time` when a start or an end was given |
| CefParser.InitialBodyLookups | Blog/Convert-activity-log-to-CEF-events/cefParser.py:11-20 | the first body holds the limit, the category when one is given, and the time object when a start or an end was given |
| CefParser.RequestFor | Blog/Convert-activity-log-to-CEF-events/cefParser.py:7-20 | definition of the request: the continue endpoint with only the cursor when a cursor is given, otherwise `get_events` with the first body |
| CefParser.RequestForBody | Blog/Convert-activity-log-to-CEF-events/cefParser.py:7-20 | a continue request goes to the continue endpoint with only the cursor; a first request goes to `get_events` with the limit, the category exactly when one is given and the time object exactly when a start or an end was given, with no other key; either body has distinct keys |
| CefParser.OkPages | Blog/Convert-activity-log-to-CEF-events/cefParser.py:25-27 | the pages of an exchange without errors, in order |
| CefParser.GetEvents | Blog/Convert-activity-log-to-CEF-events/cefParser.py:4-32 | one request per response; success exactly when no response is an HTTP error; otherwise the failure carries the status of the failing response |
| CefParser.GetEventsContinues | Blog/Convert-activity-log-to-CEF-events/cefParser.py:27-28 | proof step: a page saying more follow is followed by the requests of a pull continuing from its cursor |
| CefParser.GetEventsFirstRequest | Blog/Convert-activity-log-to-CEF-events/cefParser.py:4-22 | proof step: the first request sent is the one asked for |
| CefParser.GetEventsRequestAt | Blog/Convert-activity-log-to-CEF-events/cefParser.py:7-9 | request `k` continues from the cursor of page `k - 1` |
| CefParser.GetEventsRequests | Blog/Convert-activity-log-to-CEF-events/cefParser.py:4-28 | the first request is the one asked for and each later one continues from the previous page's cursor |
| CefParser.GetEventsPulls | Blog/Convert-activity-log-to-CEF-events/cefParser.py:24-29 | a successful pull returns the events of all pages in page order, with the first page's cursor |
| CefParser.OkPagesCons | Blog/Convert-activity-log-to-CEF-events/cefParser.py:25-28 | proof step: the pages of an exchange are its first page followed by the pages of the rest |
| Paging.Items | Blog/Convert-activity-log-to-CEF-events/cefParser.py:26-28 | definition of the items of a drain: those of each page, in page order |
| Paging.ItemSet | Blog/list_all_team_contents/list_all_team_contents.py:22-38 | definition of the set of items of a drain |
| Paging.ItemsMember | Blog/Convert-activity-log-to-CEF-events/cefParser.py:26-28 | an item is collected exactly when some page holds it |
| Paging.ItemsMembers | Blog/list_all_team_contents/list_all_team_contents.py:20-27 | every item collected is on some page, and every item of every page is collected |
| Paging.ItemsCons | Blog/Convert-activity-log-to-CEF-events/cefParser.py:28 | the items of a page followed by more pages are the page's items followed by theirs |
| Paging.DrainsHasNext | Blog/list_all_team_contents/list_all_team_contents.py:34-37 | proof step: while a page says more follow, a next page exists |
| Paging.DrainCalls | Blog/list_all_team_contents/list_all_team_contents.py:29-38 | a drain issues the first call, then one continue call per later page with the previous page's cursor |
| Paging.DrainStep | Blog/list_all_team_contents/list_all_team_contents.py:34-38 | one more page adds one continue call, that page's items, and their ids to the collected set |
| TeamContents.NamespaceIdSet.constructor | Blog/list_all_team_contents/list_all_team_contents.py:22 | the set starts empty |
| TeamContents.NamespaceIdSet.HandleNamespacesResult | Blog/list_all_team_contents/list_all_team_contents.py:24-27 | adds exactly the ids of the page's namespaces |
| TeamContents.LeastExists | Blog/list_all_team_contents/list_all_team_contents.py:40 | a non-empty set of ids has a least element |
| TeamContents.MinOf | Blog/list_all_team_contents/list_all_team_contents.py:40 | the least id of a non-empty set |
| TeamContents.SortedIds | Blog/list_all_team_contents/list_all_team_contents.py:40 | the ids in strictly increasing numeric order, each exactly once |
| TeamContents.NamespaceCalls | Blog/list_all_team_contents/list_all_team_contents.py:29-38 | the namespace list, then one continue call per later page with the previous page's cursor |
| TeamContents.FolderCalls | Blog/list_all_team_contents/list_all_team_contents.py:67-86 | the root folder `""` listed recursively without mounted folders, then one continue call per later page with the previous page's cursor |
| TeamContents.EntryLines | Blog/list_all_team_contents/list_all_team_contents.py:53-57 | one line per entry, in order |
| TeamContents.EntryLinesAppend | Blog/list_all_team_contents/list_all_team_contents.py:53-57 | the lines of two runs of entries are those of the first followed by those of the second |
| TeamContents.ListingCalls | Blog/list_all_team_contents/list_all_team_contents.py:59-86 | definition of the calls of the listing loop: each namespace's folder drain, in the order of the ids |
| TeamContents.Transcript | Blog/list_all_team_contents/list_all_team_contents.py:59-86 | definition of the lines the listing loop prints: for each namespace its heading, then one line per entry of its pages |
| TeamContents.ListingStep | Blog/list_all_team_contents/list_all_team_contents.py:59-86 | listing one more namespace appends its calls and its part of the report |
| TeamContents.HandleListingResult | Blog/list_all_team_contents/list_all_team_contents.py:49-57 | one line per entry of the page, in order |
| TeamContents.ListNamespace | Blog/list_all_team_contents/list_all_team_contents.py:67-86 | the listing loop issues exactly the folder calls and reports every entry of every page in order |
| TeamContents.CollectNamespaceIds | Blog/list_all_team_contents/list_all_team_contents.py:22-38 | the namespace loop issues exactly the drain's calls and collects exactly the ids of all pages |
| TeamContents.ListNamespaces | Blog/list_all_team_contents/list_all_team_contents.py:59-86 | the ids are listed in order, each with a heading line and its listing |
| TeamContents.ListAllContents | Blog/list_all_team_contents/list_all_team_contents.py:8-86 | the ids are exactly those of all pages, strictly increasing; the calls are the namespace drain followed by each namespace's listing; the report is the count followed by each namespace's heading and entries |
| TeamContents.HeadingsAppend | Blog/list_all_team_contents/list_all_team_contents.py:59-60 | the headings of two reports in a row are those of the first followed by those of the second |
| TeamContents.EntriesAppend | Blog/list_all_team_contents/list_all_team_contents.py:54-57 | the entries of two reports in a row are those of the first followed by those of the second |
| TeamContents.EntryLinesReport | Blog/list_all_team_contents/list_all_team_contents.py:53-57 | entry lines head no namespace and report exactly their entries |
| TeamContents.AllEntries | Blog/list_all_team_contents/list_all_team_contents.py:59-86 | definition of every entry listed: namespace by namespace, in page order and then in order within a page |
| TeamContents.TranscriptReport | Blog/list_all_team_contents/list_all_team_contents.py:59-86 | the report heads exactly the listed namespaces, in order, and reports every entry of every page once, in page order and then within-page order |
| TeamContents.ListedInSortedOrder | Blog/list_all_team_contents/list_all_team_contents.py:40-60 | the namespaces are listed each exactly once, in increasing numeric order, with all their entries |

## Left out

- Remote calls: the Dropbox SDK, `requests.post` and its headers and token are not modelled. Session ids, finish-batch results, event responses and listing pages are parameters.
- Concurrency: the two thread pools are not modelled. Appends and per-file uploads run sequentially in submission order, and no property depends on completion order.
- Local I/O is not modelled. This covers `os.listdir`/`os.path.isfile` (replaced by a list of name and is-file entries), `expanduser`, `getsize`, opening files (contents are byte sequences), the UDP socket, the CSV file written by `writeEvents`, `configparser`, `argparse`, `validateDate`, `main` and `run_and_time_uploads` with its timing and floating-point throughput.
- Logging and `print` output are not modelled, except the lines `list_all_contents` prints, which are its only result.
- `strptime`/`strftime`: the timestamp conversion is the parameter `formatTime`, which gives `None` where `strptime` raises.
- `str()`/`repr()` of values: strings are quoted without escaping, and floating-point numbers are not modelled.
- `json.dumps` of the request body and the UTF-8 encoding of datagrams are not modelled. A body is a JSON value and a datagram a string.
- `os.path.join` is modelled for POSIX paths only.
- AwaitFinishBatch: the unbounded polling loop with `time.sleep` reads a finite list of poll results; a list that never settles ends in `FinishJobUnsettled`.
- GetEvents: an HTTP error is a failure outcome. The `None` the source returns there, and the type error its caller then raises, are not modelled. The precondition `Exchange` says only that the server's pages end.
- UploadSessionAppends: requires a non-zero chunk size for a non-empty file. The source loops forever there (see Findings).
- UploadFiles: `MissingSessionId` stands for the index error of asking for more session ids than the server returned.
- TeamContents.SortedIds: namespace ids are natural numbers, so `key=int` is the numeric order; ids are not modelled as decimal strings.
- TeamContents.ListAllContents: the admin client, the path-root client and the type name of an entry are not modelled. An entry is its kind and its lower-cased path.
- CefParser.FlattenCopies and CefParser.FlattenActor: stated only for events with distinct keys and without keys of their own named `actor.tag` or `actor_info`. `Flatten` itself models the overwrite such a key would suffer, but no lemma describes that case.
- CefParser.CefOf has no contract of its own; `CefParser.CefOfSucceeds` states its properties.
- CefParser.RequestFor has no contract of its own; `CefParser.RequestForBody` states its properties.
- CefParser.InitialBody has no contract of its own; `CefParser.InitialBodyKeys` and `CefParser.InitialBodyLookups` state its properties.
- The other rows marked as definitions have no contracts of their own either; the lemmas and methods in the rows beside them state their properties.
- Paging.Items and Paging.ItemSet have no contracts of their own; `Paging.ItemsMember`, `Paging.ItemsCons` and `Paging.DrainStep` state their properties.

## Findings

| source | as written | input that shows it | evidently intended | confidence | as-written member | corrected member |
|---|---|---|---|---|---|---|
| Blog/performant_upload/performant_upload.py:121-124 | the "max batch size is 1000" assertion measures `entries`, which is still empty when it runs, so it always passes | a batch of 1001 files | reject a batch of more than 1000 files | high, not executed | PerformantUpload.OversizedBatchPassesAsWritten | PerformantUpload.UploadFiles |
| Blog/performant_upload/performant_upload.py:125-126 | the chunk-size assertion only asks for a multiple of 4 MiB, which 0 is; `read(0)` never advances, so the append loop of a non-empty file never ends | chunk size 0 and a 1-byte file | require a non-zero multiple of 4 MiB; a negative multiple still passes, as in the source, and reads the whole file at once | high, not executed | PerformantUpload.ZeroChunkSizePassesAsWritten | PerformantUpload.ValidChunkSizeAdvances |
