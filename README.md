# fb_uploader in Dafny

A model of the decision logic of `fb_uploader/upload.py`. This small FastAPI service
uploads a video to a Facebook page, through the resumable upload protocol of the Graph
API, and exchanges a short-lived user token for a long-lived one. The model covers
four parts:

- **Reading and validating the schedule time.** `upload_video` parses the form field
  `scheduled_time` with `strptime(…, "%Y-%m-%d %H:%M")` and reads it as UTC.
  `upload_facebook_video` refuses an instant less than ten minutes after now. It
  turns an accepted instant into integer Unix seconds: the proleptic Gregorian day
  count × 86400 + H·3600 + M·60.
- **The three phases of the upload** (`upload_facebook_video`).
  - A start POST opens a session and hands back the first `(start_offset, end_offset)`.
  - A loop reads the chunk of the file between the offsets, POSTs it, and takes the
    next offsets from the reply.
  - A finish POST closes the session. It carries the scheduling fields only when the
    timestamp is truthy.
  - An `"error"` in any reply aborts the upload.
- **The finish payload** (`finish_data`), built by insertion.
- **The answers of the two handlers.** `upload_video` answers 200 or 500.
  `exchange_token` answers 200, 400 or 500.

Outside effects are inputs:

- The file is a `seq<byte>`, or `None` when the path is not a file.
- The clock is `nowMicros`, microseconds since the epoch.
- The Graph API is a `Script` of decoded replies: one for the start POST, one per
  transfer POST, and one for the finish POST.
- Each POST the code issues is collected in order, so that lemmas can speak about
  what was sent.

Modules, in dependency order:

| file | module | contents |
|---|---|---|
| wrappers.dfy | `Wrappers` | `Option`, `Result` |
| text.dfy | `Text` | ASCII digits and whitespace, decimal numerals |
| json.dfy | `Json` | decoded JSON values; Python's `in`, `[]`, `.get`, `int()` on them |
| schedule.dfy | `Schedule` | `datetime` fields, the calendar, `timestamp()`, the ten-minute rule, the `strptime` grammar |
| faults.dfy | `Faults` | the exceptions the code raises or lets escape |
| upload.dfy | `Upload` | `upload_facebook_video`: reply interpretation, the specification function `UploadSpec`, the imperative loop and method, lemmas |
| handlers.dfy | `Handlers` | `upload_video` and `exchange_token` |

Two parts are imperative in the source and in the model:

- **The transfer loop.** `Upload.TransferLoop` is a `while` loop over the two offsets.
  `Upload.TransferStep` is one pass of its body. The loop is proved equal to the
  recursive specification function `Upload.Transfers`. The properties of the upload
  are then proved about `Transfers` and `UploadSpec`.
- **`finish_data`.** `Upload.BuildFinishForm` inserts the keys one by one. It is proved
  equal to `Upload.FinishForm`, whose contract states the keys and their values.

## Model

| member | source | states |
|---|---|---|
| Json.Contains | fb_uploader/upload.py:48 | `key in v` raises exactly on null, booleans and integers; on a dict it is key membership |
| Json.Subscript | fb_uploader/upload.py:49 | `v[key]` succeeds exactly on a dict holding the key, and yields that key's value |
| Json.GetOr | fb_uploader/upload.py:51-54 | `.get(key, default)` exists only on a dict; it yields the key's value when present and the default otherwise |
| Json.ToInt | fb_uploader/upload.py:53-54 | `int()` leaves an integer unchanged, turns `True`/`False` into 1/0, reads a string as a numeral, and raises on null, lists and dicts |
| Json.ParseInt | fb_uploader/upload.py:53-54 | `int()` of a string succeeds exactly on an optional sign followed by 1 to 4300 ASCII digits; the result is the digits' decimal value, negated after a minus sign |
| Json.NumeralStringToInt | fb_uploader/upload.py:53-54 | `int()` of a zero-padded decimal numeral string of at most 4300 digits gives back the number |
| Schedule.EpochSeconds | fb_uploader/upload.py:35 | the whole seconds since 1970-01-01 UTC split into the days since the epoch's day (by the proleptic Gregorian ordinal) and the seconds into the day |
| Schedule.Timestamp | fb_uploader/upload.py:35 | `int(dt.timestamp())` is the epoch seconds when there are no microseconds; otherwise it is the instant truncated toward zero in exact arithmetic: the whole second at or below a non-negative instant, the whole second at or above a negative one |
| Schedule.DaysBeforeYearStep | fb_uploader/upload.py:35 | the closed-form day count before a year grows by exactly that year's length |
| Schedule.DaysBeforeMonthStep | fb_uploader/upload.py:35 | the day count before a month grows by that month's length, and the twelve months fill the year |
| Schedule.DaysBeforeYearGrows | fb_uploader/upload.py:35 | every later year starts after the whole of an earlier one |
| Schedule.DaysBeforeMonthGrows | fb_uploader/upload.py:35 | every later month starts after the whole of an earlier one |
| Schedule.DayOfYearBounds | fb_uploader/upload.py:35 | a valid date's ordinal lies within its own year |
| Schedule.EarlierDateSmallerOrdinal | fb_uploader/upload.py:33 | an earlier calendar date has a smaller day ordinal |
| Schedule.EarlierIsSmallerInstant | fb_uploader/upload.py:33 | field-by-field `<` implies an earlier instant |
| Schedule.InstantOrderIsFieldOrder | fb_uploader/upload.py:33 | Python's field-by-field `<` on two UTC datetimes holds exactly when the first instant is earlier (both directions) |
| Schedule.InstantsAreDistinct | fb_uploader/upload.py:33 | different valid datetimes name different instants |
| Schedule.ScheduledTimestamp | fb_uploader/upload.py:31-35 | rejected exactly when the instant is earlier than now + 10 minutes; an accepted timestamp is at least now + 600 s, and equals the instant's epoch seconds at whole seconds |
| Schedule.TenMinutesAheadIsAccepted | fb_uploader/upload.py:32-34 | an instant exactly ten minutes after now is accepted, because the comparison is strict |
| Schedule.Parse | fb_uploader/upload.py:135-136 | a text that parses yields a valid datetime (year 1-9999, day within its month) with zero seconds and microseconds |
| Schedule.ParseSpelled | fb_uploader/upload.py:135 | a text made of a four-digit year, a one- or two-digit month, day (or a space and one digit), hour and minute, with `-`, `-`, a run of whitespace and `:` between them, parses to those fields, unless the year is 0 or the day is past the end of its month |
| Schedule.ParsedTextIsSpelled | fb_uploader/upload.py:135 | every text that parses is spelled that way, with the fields it parsed to |
| Schedule.ParseMeansSpelled | fb_uploader/upload.py:135-136 | `strptime` yields a datetime exactly when it is valid, at a whole minute, and the text spells it (both directions) |
| Schedule.ExampleLeapDayRefused | fb_uploader/upload.py:135 | `"2025-02-29 10:00"` is refused: 2025 has no 29 February |
| Schedule.ExampleYearZeroRefused | fb_uploader/upload.py:135 | `"0000-01-01 00:00"` is refused: year 0 is out of range |
| Schedule.ExampleShortFields | fb_uploader/upload.py:135 | `"2025-6- 4\t  9:5"` (one-digit fields, a space-padded day, a tab and spaces between date and time) parses to 2025-06-04 09:05 |
| Schedule.ParseFormatFollowedBy | fb_uploader/upload.py:135 | the canonical `YYYY-MM-DD HH:MM` text of any valid datetime parses back to it; the same text followed by anything is refused as unconverted data |
| Schedule.ParseFormat | fb_uploader/upload.py:135 | the round trip: parsing the canonical text gives back the datetime at minute precision |
| Schedule.ExampleSchedule | fb_uploader/upload.py:122 | `"2025-06-04 16:25"` parses to 2025-06-04 16:25:00 UTC |
| Schedule.ExampleTimestamp | fb_uploader/upload.py:35 | 2025-06-04 16:25:00 UTC is 1749054300 seconds after the epoch |
| Upload.FinishForm | fb_uploader/upload.py:88-97 | the finish dict always has `upload_phase="finish"`, the session id, the token, the title and the description; it has `published="false"` and `scheduled_publish_time=ts` exactly when the timestamp is truthy; it has no other keys |
| Upload.BuildFinishForm | fb_uploader/upload.py:88-97 | building the dict by insertion gives exactly `FinishForm` |
| Upload.ReadChunk | fb_uploader/upload.py:58-60 | `seek`/`read` fail exactly for a position that is negative or above 2^63-1, or a size below -1 or above 2^63-1; otherwise the chunk is the file's bytes from the position, of length `end - start` cut at end of file (the rest of the file for -1), and empty past the end |
| Upload.OpenSession | fb_uploader/upload.py:46-54 | the start reply is accepted exactly when it is a dict without `"error"` whose offsets convert with `int()`; an `"error"` gives `StartRejected` carrying it; the offsets default to 0; the session id and video id are the reply's (None when absent) |
| Upload.AfterTransfer | fb_uploader/upload.py:74-82 | a transfer reply is accepted exactly when it is a dict without `"error"` whose offsets convert; an `"error"` always aborts, carrying `error["message"]` when that lookup succeeds and otherwise failing on the lookup itself; each new offset is the reply's when present and the current one otherwise |
| Upload.Transfers | fb_uploader/upload.py:56-85 | the transfer phase as a function of the replies: at most one POST per reply plus one, and a POST that finds no reply left ends it as unreadable |
| Upload.UploadSpec | fb_uploader/upload.py:13-109 | the whole upload as a function: any POST sent begins with the start POST announcing the file size; a success sent at least the start and finish POSTs; at most two POSTs beyond the transfer replies |
| Upload.FinishFault | fb_uploader/upload.py:103-106 | the finish reply passes exactly when the body does not contain `"error"` in Python's sense; for a dict, exactly when `"error"` is not a key, and otherwise the fault carries that error |
| Upload.TransferStep | fb_uploader/upload.py:58-82 | one pass of the loop body issues at most one POST; it either stops where `Transfers` stops, or continues from the reply's offsets exactly as `Transfers` does |
| Upload.TransferLoop | fb_uploader/upload.py:56-85 | the `while` loop over the offsets issues exactly the POSTs of `Transfers`, and ends with the same cursor or fault |
| Upload.UploadFacebookVideo | fb_uploader/upload.py:13-109 | the whole function, with its early exits, issues exactly the POSTs of `UploadSpec` and returns its video id or fault |
| Upload.TransfersSendSlices | fb_uploader/upload.py:57-73 | every transfer POST carries a non-empty chunk, which is the file's bytes at the `start_offset` it declares |
| Upload.TransfersEndAtExit | fb_uploader/upload.py:57-62 | the loop ends without a fault only at `start_offset >= file_size`, or on an empty chunk (`end_offset == start_offset`) |
| Upload.ErrorReplyEndsTransfers | fb_uploader/upload.py:76-79 | a transfer reply holding `"error"` answers the last transfer POST, and the loop ends with a fault |
| Upload.GaplessSlicesCover | fb_uploader/upload.py:57-73 | slices of the file sent at gapless offsets concatenate to the file between the first and last offsets |
| Upload.ResumedTransfersCoverFile | fb_uploader/upload.py:57-82 | when the server resumes each transfer where the last chunk ended and the loop runs off the end, the chunks sent are exactly the file from the first offset on |
| Upload.ValidationPrecedesRequests | fb_uploader/upload.py:21-45 | nothing is sent exactly when the file is missing or the schedule is too soon, with the matching fault; otherwise the first POST is the start POST announcing the file size |
| Upload.UploadPhases | fb_uploader/upload.py:37-106 | after validation and an accepted start reply, the POSTs are the start POST, then the transfer POSTs, then one finish POST exactly when the loop ended without a fault; a fault of the loop is the outcome |
| Upload.StartErrorStopsUpload | fb_uploader/upload.py:48-49 | an `"error"` in the start reply ends the upload after the start POST, with that error |
| Upload.TransferErrorStopsUpload | fb_uploader/upload.py:76-79 | an `"error"` in a transfer reply that is read ends the upload: no POST follows the one it answers, no finish POST is sent, and the outcome is a fault |
| Upload.FinishErrorFailsUpload | fb_uploader/upload.py:105-106 | an `"error"` in the finish reply always means a failed upload, carrying that error when the finish POST was sent |
| Upload.SuccessfulUpload | fb_uploader/upload.py:51-109 | a successful upload returns the start reply's `video_id`, whatever the finish reply holds; the POSTs are start, transfers of file slices, and the finish built from the session and timestamp; a scheduled timestamp is at least now + 600 s |
| Handlers.ScheduleOf | fb_uploader/upload.py:133-136 | an absent or empty `scheduled_time` means no schedule; any other text either parses, giving a valid whole-minute datetime, or fails |
| Handlers.UploadVideoSpec | fb_uploader/upload.py:126-151 | `upload_video` answers only 200 or 500; an unparsable schedule is a 500 with no POST; otherwise the POSTs are the upload's, a 200 carries the video id `upload_facebook_video` returned and a 500 the fault it raised |
| Handlers.UploadVideo | fb_uploader/upload.py:116-151 | the handler issues exactly the POSTs of `UploadVideoSpec` and gives its response |
| Handlers.ScheduleRejectedBeforeUpload | fb_uploader/upload.py:133-151 | an unparsable schedule text, or one naming an instant less than ten minutes ahead, is answered 500 with that fault, before any POST |
| Handlers.ScheduledUploadPublishesAtText | fb_uploader/upload.py:133-147 | a 200 answer to a scheduled upload carries the start reply's `video_id`; the parsed instant is at least ten minutes ahead; the finish POST asks for publication at that instant's epoch seconds |
| Handlers.UnscheduledUploadFinishesPlain | fb_uploader/upload.py:133-147 | a 200 answer to an upload without a schedule carries the start reply's `video_id`, and its finish POST has exactly the five keys `upload_phase`, `upload_session_id`, `access_token`, `title` and `description` |
| Handlers.TokenRequestOf | fb_uploader/upload.py:170-178 | the token request goes to the v19.0 `oauth/access_token` endpoint and carries exactly `grant_type=fb_exchange_token`, `client_id`, `client_secret` and `fb_exchange_token` |
| Handlers.ExchangeToken | fb_uploader/upload.py:169-191 | for the endpoint's reply to that request: 200 with `long_lived_user_token` exactly when the reply is a dict holding `access_token`; 400 exactly when it is a dict without it, carrying its `error` or `"Unknown error"`; 500 otherwise |

## Behaviour worth knowing

- **Validation failures are answered 500.** An unparsable or too-soon schedule raises
  inside `upload_video`'s `try`, and the `except` answers 500.
- **Neither `upload_video` nor `upload_facebook_video` checks a field for
  emptiness** (lines 13-151). The form binding in front of the handler refuses a
  required field sent empty and turns an empty `scheduled_time` into `None`; the
  model starts after that binding.
- **The upload is the three-phase resumable protocol** (start, transfer, finish). The
  title, description and schedule travel only in the finish POST.
- **The upstream HTTP status is never inspected.** Only the decoded body decides.
  `Reply` therefore holds only the body, or `Unreadable` when the call raises or the
  body is not JSON.
- **`exchange_token` answers 400 for any JSON dict without `access_token`**, whatever
  the dict holds. It answers 500 when the reply is not a dict.
- **The scheduling fields depend on truthiness.** They are added when the timestamp is
  truthy, so a timestamp of 0 would send none.
- **A transfer reply's `"error"` must be a dict with a `"message"`.** Otherwise the
  lookup that builds the exception message fails first, and a different exception
  escapes; the upload fails either way.

## Left out

- FastAPI routing and form/query binding, `UploadFile.read`, the `/health` endpoint and `uvicorn.run`: framework plumbing. `upload_video` receives the bytes directly.
- The temporary file (creation, write, removal in `finally`) and `os.path.isfile`/`getsize`: the file is a `seq<byte>`, present or not.
- `requests.post`/`requests.get`, `.json()` and the network: each reply is an input value, and a reply that cannot be had is `Unreadable`.
- `requests` drops `data` entries whose value is None; the model's POSTs keep them as `JNull`.
- `datetime.now`: the clock is the parameter `nowMicros`.
- `print` and `traceback` logging: console output.
- The timezone-naive check (lines 29-30): the handler always attaches UTC, so every modelled datetime is UTC.
- Exception messages: `str(e)` is represented by the `Fault` that was raised, not by its text.
- Upload.Transfers: the server's transfer replies are a finite script. A transfer POST that finds no reply left counts as a POST that raised, so the model does not capture a server that keeps the loop going forever by repeating the same offsets.
- Schedule.Parse: only ASCII digits and ASCII whitespace are modelled. Python's `\d` and `\s` also match other Unicode digits and spaces.
- Json.ParseInt: `int()` also accepts surrounding whitespace, `_` between digits and non-ASCII digits; the model refuses them. The 4300-digit limit is applied to every digit of the numeral, leading zeros included.
- Json.ToInt: strings are read by `Json.ParseInt`, with its limits, and JSON numbers with a fraction or an exponent are not modelled.
- Upload.ReadChunk: a read size within 2^63-1 but far beyond the file makes `read` preallocate that many bytes, which can raise MemoryError (or OverflowError past the largest bytes object); this depends on the machine's memory and is not modelled.
- Upload.TransferLoop: the progress line (line 84) computes `start_offset / file_size` in floating point, which raises OverflowError when a reply's `start_offset` is so large that the quotient exceeds the float range; that would abort the loop before the finish POST, and the model does not capture it.
- Schedule.Timestamp: Python's `timestamp()` divides the microseconds by 10^6 as a correctly rounded double before `int()` truncates it, so far from the epoch an instant just below a whole second (3000-01-01 00:00:00.999999 UTC, say) gives the next second; the model truncates the exact quotient. The handler only produces whole-minute instants, for which both agree.
- Schedule.ScheduledTimestamp: `now + timedelta(minutes=10)` raises OverflowError near the end of year 9999; the model's arithmetic is unbounded. `timestamp()` is computed in floating point in Python, which is exact for the whole-minute instants the handler produces.
