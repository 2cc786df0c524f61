# Football Organiser Toolkit: event composition and request bodies

A Dafny model of the part of the Football Organiser Toolkit that decides
what gets sent to the team-scheduling platform:

- the `create` command, which turns its options, the chosen match preset
  (`--home` or `--away`) and the geocoder's answer into one event: heading,
  start, end, meetup time, description and venue;
- the `batch-create` command, which turns every row of an events file into
  one event, stops at the first row that fails, and then submits one create
  request per row;
- the record that `create_event` posts for a new event, with its fixed
  settings, its wire timestamps (`%Y-%m-%dT%H:%M:%S.000Z`), its free-text
  venue and its recipients;
- the change set that `update_event` sends for an existing event, where a key
  is present exactly when its argument was given;
- the plain-text listing that `get_event_summary` writes for a list of
  events.

The geocoder, the user's confirmation, the preview flag and the file reader
are inputs to the model. The model never calls them.

Modules follow the program's structure:

| module | file | models |
|---|---|---|
| `Templates` | templates.dfy | the two presets `HOME_DEFAULTS` and `AWAY_DEFAULTS` |
| `Compose` | compose.dfy | `create_cmd` up to the `create_event` call |
| `Batch` | batch.dfy | `batch_create` |
| `CreatePayload` | create_payload.dfy | the `event_data` record of `create_event`, and how a call's keywords bind to its parameters |
| `UpdatePayload` | update_payload.dfy | the `updates` dict of `update_event` |
| `Summary` | summary.dfy | `get_event_summary` |
| `Civil` | civil.dfy | Python `datetime` and `timedelta` arithmetic in whole minutes, years 1..9999 |
| `Timestamp` | timestamp.dfy | `strftime` and `strptime` with the formats the toolkit uses |
| `Numerals` | numerals.dfy | Python `int()` on text, and zero-padded decimal numbers |
| `Text` | text.dfy | `str.strip`, `split`, `join`, `in`, slicing and `replace` |
| `Json` | json.dfy | JSON values and objects whose keys keep their order |
| `Wrappers` | wrappers.dfy | `Option` and `Result` |

Each exception the code raises on a path the model covers is a `Result`
error, not a precondition. These are:

- `UsageError` for `--home` with `--away`;
- `BadParameter` for a time that is not `H:M`;
- the `ValueError` raised by `replace` for an hour or minute out of range;
- the `OverflowError` raised by `timedelta` outside years 1..9999;
- `KeyError` and `AttributeError` on CSV rows;
- `ValueError` from `int()` and `strptime`;
- `KeyError` for an event without an id in the listing.

## Model

| member | source | states |
|---|---|---|
| `Compose.Coalesce` | footballorganisertoolkit/cli.py:245-250 | An explicit option always wins, even 0 or "". A preset value wins only when it is truthy. Otherwise the hard default applies. |
| `Compose.ChosenDefaults` | footballorganisertoolkit/cli.py:19-48 | With the presets as written, the time is the given one or 10:00. The duration is the given one, else 210 for an away match and 75 otherwise. The lead time is the given one or 30. |
| `Compose.ApplySuffix` | footballorganisertoolkit/cli.py:252-254 | The heading is kept, or the preset suffix is appended, and only for an away match whose preset has a suffix. A heading that already contains the suffix is kept as it is. Otherwise an away match's heading gets the suffix appended. |
| `Compose.SuffixIdempotent` | footballorganisertoolkit/cli.py:252-254 | Applying the suffix rule twice gives the same heading as applying it once. |
| `Compose.SuffixOnlyAway` | footballorganisertoolkit/cli.py:252-254 | A home match, or a match without a preset, keeps its heading. |
| `Compose.MergeDescription` | footballorganisertoolkit/cli.py:256-263 | The preset text is a prefix of the result and the user's text is its suffix. When both are present they are separated by a blank line. The result's length is accounted for exactly. |
| `Compose.GeocoderQuery` | footballorganisertoolkit/cli.py:265-271 | Unless the presets conflict, the geocoder is asked about a non-empty `--location`. It is asked about nothing else: never for a home match without `--location`, and never after conflicting presets. |
| `Compose.ResolveLocation` | footballorganisertoolkit/cli.py:265-280 | The venue record is the home venue, the geocoder's answer, or nothing, case by case. The free text is passed on exactly when no venue record was found. |
| `Compose.Timing` | footballorganisertoolkit/cli.py:282-290 | A malformed time is `BadTimeFormat` and an hour or minute out of range is `TimeOutOfRange`, each in both directions. On success the start is that clock time on the date, the end is `duration` minutes later and the meetup `prior` minutes earlier. |
| `Compose.Compose` | footballorganisertoolkit/cli.py:232-290 | Conflicting presets are an error. The two time errors hold exactly when described. A composed event carries the defaults, heading, description and venue rules above and the minute arithmetic of the three times. |
| `Compose.ComposeOrdering` | footballorganisertoolkit/cli.py:288-290 | The event ends after it starts iff the duration is positive. The meetup is not after the start iff the lead time is not negative. |
| `Compose.GeocoderUnused` | footballorganisertoolkit/cli.py:265-280 | When the geocoder is not asked, its answer cannot change the composed event. |
| `Compose.ComposeSteps` | footballorganisertoolkit/cli.py:282-290 | When every step that can fail yields a value, the composition is the event built from those values. |
| `Compose.PlainCompose` | footballorganisertoolkit/cli.py:245-290 | With no preset, no location, lead time 0 and every option given, the options are scheduled exactly as given. |
| `Compose.HomeScenario` | footballorganisertoolkit/cli.py:19-37 | `--home` on 2026-03-07 gives 10:00 to 11:15, a 09:30 meetup, the home venue, the home description and no free text. |
| `Compose.AwayOverMidnightScenario` | footballorganisertoolkit/cli.py:39-48 | `--away` at 22:00 on 2026-12-31 gets the suffix, ends at 01:30 on 2027-01-01, meets at 21:30 and has no venue. |
| `Compose.CommandPayload` | footballorganisertoolkit/cli.py:316-328 | The record the command sends reads back as the composed heading, description, start, end and group. Its venue text is `--location` exactly when no venue record was found, so a home match without `--location` sends none. |
| `Compose.CommandCallAsWritten` | footballorganisertoolkit/cli.py:316-328 | As written, the call is rejected at `location_data` (see Findings). |
| `Compose.CommandCallCorrected` | footballorganisertoolkit/cli.py:316-328 | Without the three arguments `create_event` lacks, the call binds and keeps every argument that did. |
| `Batch.Field` | footballorganisertoolkit/cli.py:367-369 | A column missing from the header is a `KeyError`. A short row's `None` is an `AttributeError`. Otherwise the value is stripped. |
| `Batch.FieldOr` | footballorganisertoolkit/cli.py:370-372 | An optional column falls back to its default when it is missing. The result is stripped, and a short row is still an error. |
| `Batch.RowRequiredFailure` | footballorganisertoolkit/cli.py:367-369 | A row fails at the first of heading, date and time that cannot be read, with that column's error. |
| `Batch.RowBadDuration` | footballorganisertoolkit/cli.py:370 | A duration `int()` rejects makes the row fail before its date is parsed. |
| `Batch.DefaultDuration` | footballorganisertoolkit/cli.py:370 | A missing or blank duration column means 90 minutes. |
| `Batch.Schedule` | footballorganisertoolkit/cli.py:374-377 | A bad date, a malformed time, an hour or minute out of range, and an end outside years 1..9999 are reported in that order, each in both directions. A row succeeds iff every step does. It then starts at the parsed date and time and ends `duration` minutes later. |
| `Batch.RowComposed` | footballorganisertoolkit/cli.py:366-388 | A composed row holds the stripped heading and description. Its start is the parsed date and clock time, and its end is the parsed duration later. Its location is the stripped text, or none when that is empty. |
| `Batch.ScheduleAgreesWithCreate` | footballorganisertoolkit/cli.py:374-377 | A row schedules its event exactly as `create` would with the same options, no preset and no lead time. |
| `Batch.RowResults` | footballorganisertoolkit/cli.py:366-388 | There is one outcome per row. Every row event that composed has valid times. |
| `Batch.RowResultsAt` | footballorganisertoolkit/cli.py:366-377 | The outcome for row i is the composition of row i alone. |
| `Batch.Collect` | footballorganisertoolkit/cli.py:366-388 | The loop succeeds iff every row composed, and then keeps all events in order. Otherwise it reports the first failing row, with its error. |
| `Batch.ComposeBatch` | footballorganisertoolkit/cli.py:366-388 | The same, stated for the rows of a file. |
| `Batch.RowPayload` | footballorganisertoolkit/cli.py:409-418 | The record sent for a row reads back as the row's heading, description, start, end and location, with the group and no subgroup. |
| `Batch.Requests` | footballorganisertoolkit/cli.py:408-418 | The submission loop makes one create request per event, in order. |
| `Batch.BatchCreate` | footballorganisertoolkit/cli.py:355-418 | An empty file creates nothing. Any failing row stops the command, and the row reported is the first that failed. With every row composed, a preview stops before the confirmation, a declined confirmation stops after it, and each keeps the composed events; each case holds in both directions. Submission happens iff every row composed, the run is not a preview and the user confirmed. Then there is exactly one request per row, in order. |
| `Batch.BatchCallAsWritten` | footballorganisertoolkit/cli.py:409-418 | As written, the call is rejected at `owner_ids` (see Findings). |
| `Batch.BatchCallCorrected` | footballorganisertoolkit/cli.py:409-418 | Without `owner_ids` the call binds and keeps every other argument. |
| `CreatePayload.Payload` | footballorganisertoolkit/spond_client.py:71-102 | The record has the eighteen keys in the order the code writes them. |
| `CreatePayload.PayloadKeysUnique` | footballorganisertoolkit/spond_client.py:71-102 | No key occurs twice in the record. |
| `CreatePayload.RequestFields` | footballorganisertoolkit/spond_client.py:72-76 | Heading and description are sent as given. Start and end are sent in the wire format, which reads back as the same datetimes. |
| `CreatePayload.ObjectFields` | footballorganisertoolkit/spond_client.py:80-102 | `location` holds the free-text venue record. `recipients` holds the group. |
| `CreatePayload.FixedFields` | footballorganisertoolkit/spond_client.py:74-94 | Type `EVENT`, visibility `INVITEES`, no limit on accepted answers, no auto-accept, comments and participants shown, reminders off, no RSVP date. |
| `CreatePayload.PayloadConstants` | footballorganisertoolkit/spond_client.py:71-95 | Every key outside heading, description, start, end, location and recipients has the same value for every request. |
| `CreatePayload.LocationShape` | footballorganisertoolkit/spond_client.py:80-86 | The venue record has keys `id`, `feature`, `address`, `latitude` and `longitude`. The text goes under `feature` and `address`; the others are null. |
| `CreatePayload.RecipientsShape` | footballorganisertoolkit/spond_client.py:98-102 | The group carries its id. It has `subGroups` exactly when the subgroup is given and non-empty. |
| `CreatePayload.ReadRecipientsRecord` | footballorganisertoolkit/spond_client.py:98-100 | The recipients read back as the group and the subgroup. An empty subgroup reads as none. |
| `CreatePayload.ReadBackPayload` | footballorganisertoolkit/spond_client.py:71-102 | Reading the record back recovers the whole request. The one exception is an empty subgroup, which is dropped. |
| `CreatePayload.PayloadInjective` | footballorganisertoolkit/spond_client.py:71-102 | Two requests with the same record are the same request, up to an empty subgroup. |
| `CreatePayload.UnexpectedKeyword` | footballorganisertoolkit/spond_client.py:49-59 | A call binds iff every keyword names a parameter. Otherwise the `TypeError` names the first keyword, in call order, that does not. |
| `CreatePayload.RequestKeywordsBind` | footballorganisertoolkit/spond_client.py:49-59 | A call passing exactly a request's fields binds. |
| `UpdatePayload.UpdateQuery` | footballorganisertoolkit/update_helpers.py:80-97 | The geocoder is asked iff there is a query, no venue record was supplied, and the meetup time, computed first, did not overflow. It is asked about the query. |
| `UpdatePayload.UpdateLocation` | footballorganisertoolkit/update_helpers.py:95-99 | The supplied record wins, then the geocoder's answer to a query, else no venue. |
| `UpdatePayload.Meetup` | footballorganisertoolkit/update_helpers.py:80-87 | A meetup time exists iff both a start and a lead time were given. Computing it overflows exactly when it falls outside years 1..9999. |
| `UpdatePayload.UpdateMap` | footballorganisertoolkit/update_helpers.py:75-99 | The update fails exactly when the meetup overflows. Otherwise every key of the change set is one of the seven update keys, and none occurs twice. Which keys and values appear is stated by the lemmas below. |
| `UpdatePayload.UpdateKeysSupplied` | footballorganisertoolkit/update_helpers.py:75-99 | Each of the seven keys is present iff its argument was supplied. The meetup keys need both start and lead time, and the location key needs a venue. No other key appears, and none twice. |
| `UpdatePayload.UpdateValues` | footballorganisertoolkit/update_helpers.py:77-99 | Heading and description are sent as given, start and end in the wire format, and the venue record as chosen. |
| `UpdatePayload.UpdateMeetupValues` | footballorganisertoolkit/update_helpers.py:82-87 | The change set holds the lead time. Its meetup timestamp reads back as the start minus that many minutes. |
| `UpdatePayload.UpdateGeocoderUnused` | footballorganisertoolkit/update_helpers.py:95-99 | When no query is sent, the geocoder's answer cannot change the change set. |
| `UpdatePayload.EmptyUpdate` | footballorganisertoolkit/update_helpers.py:75-99 | With nothing supplied, the change set is empty. |
| `UpdatePayload.ChangeUnique` | footballorganisertoolkit/update_helpers.py:75-99 | No key occurs twice in a change set. |
| `Summary.StartField` | footballorganisertoolkit/update_helpers.py:44 | The start column is `?` without a timestamp. Otherwise it is the first 16 characters with every `T` turned into a space. |
| `Summary.DescriptionField` | footballorganisertoolkit/update_helpers.py:48 | The description column is empty for a missing description. Otherwise it is a prefix of at most 100 characters, and the whole text when that is shorter. |
| `Summary.Block` | footballorganisertoolkit/update_helpers.py:44-55 | An event gives its start-and-heading line, its id line, a location line only for a non-empty address, a description line only for a non-empty description, and a blank line. |
| `Summary.Lines` | footballorganisertoolkit/update_helpers.py:42-55 | The listing of n events has between 3n and 5n lines. A failure names an event of the list. |
| `Summary.LinesFail` | footballorganisertoolkit/update_helpers.py:46 | The listing fails iff some event has no id, and it names the first such event. |
| `Summary.LinesAppend` | footballorganisertoolkit/update_helpers.py:43-55 | Listing two runs of events gives the lines of the first run followed by those of the second. |
| `Summary.EventSummary` | footballorganisertoolkit/update_helpers.py:56 | The summary fails exactly when the listing does, and with the same error. |
| `Summary.SummarySplit` | footballorganisertoolkit/update_helpers.py:56 | For events whose fields have no line breaks, splitting the summary at newlines gives back exactly its lines. |
| `Summary.StartOfWireTimestamp` | footballorganisertoolkit/update_helpers.py:44 | A start in the platform's wire format is shown as `YYYY-MM-DD HH:MM`. |
| `Summary.LongDescriptionShown` | footballorganisertoolkit/update_helpers.py:48-54 | A description longer than 100 characters is cut to its first 100, followed by `...`. |
| `Timestamp.FormatTimestamp` | footballorganisertoolkit/spond_client.py:75-76 | The wire timestamp is 24 characters: the date, `T`, the zero-padded clock, then `.000Z`. |
| `Timestamp.ParseFormatTimestamp` | footballorganisertoolkit/spond_client.py:75-76 | Every wire timestamp reads back as the datetime it was written from. |
| `Timestamp.FormatTimestampInjective` | footballorganisertoolkit/update_helpers.py:81-90 | Different datetimes, to the second, give different wire timestamps. |
| `Timestamp.ParseFormatDate` | footballorganisertoolkit/cli.py:374 | `strptime(..., "%Y-%m-%d")` reads back every date that `%Y-%m-%d` writes. |
| `Timestamp.ParseClock` | footballorganisertoolkit/cli.py:284 | A time that parses holds exactly one `:`. |
| `Timestamp.ParseClockSplit` | footballorganisertoolkit/cli.py:284 | Text with one `:` parses iff `int()` accepts both sides, and then reads as those two integers. |
| `Timestamp.ParseClockPadded` | footballorganisertoolkit/cli.py:375 | A zero-padded `HH:MM` parses as its hour and minute. |
| `Numerals.ParseFormatInt` | footballorganisertoolkit/cli.py:370 | `int()` reads back every integer's decimal text. |
| `Numerals.ParseDigits` | footballorganisertoolkit/cli.py:370 | `int()` of a run of ASCII digits is its decimal value. |
| `Numerals.ParseNeedsDigit` | footballorganisertoolkit/cli.py:284-286 | Text without a digit is a `ValueError` for `int()`. |
| `Text.Strip` | footballorganisertoolkit/cli.py:367-372 | The stripped text is a slice of the input, with only whitespace cut on either side. Neither of its ends is whitespace. |
| `Text.StripIdempotent` | footballorganisertoolkit/cli.py:367-372 | Stripping twice gives the same text as stripping once. |
| `Text.ContainsIffOccurs` | footballorganisertoolkit/cli.py:253 | Python's substring test holds iff the text occurs at some position. |
| `Text.Split` | footballorganisertoolkit/cli.py:284 | Splitting gives one more piece than there are separators, and no piece holds a separator. |
| `Text.JoinSplit` | footballorganisertoolkit/cli.py:284 | Joining the pieces of a split gives back the text. |
| `Text.SplitJoin` | footballorganisertoolkit/update_helpers.py:56 | Splitting a join of separator-free lines gives back the lines. |
| `Civil.AtClock` | footballorganisertoolkit/cli.py:288 | `date.replace(hour, minute)` succeeds iff the hour and minute are in range. It then gives that clock time on the same date, with seconds 0. |
| `Civil.AddMinutes` | footballorganisertoolkit/cli.py:289-290 | Adding minutes succeeds iff the result stays within years 1..9999. It then moves the time by exactly that many minutes and keeps the seconds. |
| `Civil.AddMinutesInverse` | footballorganisertoolkit/cli.py:289-290 | Subtracting the minutes just added gives back the original datetime. |
| `Civil.AddDays` | footballorganisertoolkit/cli.py:289-290 | Moving a date by k days moves its proleptic Gregorian ordinal by k. |
| `Civil.OrdinalOrder` | footballorganisertoolkit/cli.py:289-290 | Dates compare in calendar order exactly as their ordinals do. |
| `Civil.BeforeIffEarlier` | footballorganisertoolkit/cli.py:289-290 | Datetimes compare as their counts of seconds do. |

## Findings

| source | as written | input that shows it | evidently intended | confidence | as-written member | corrected member |
|---|---|---|---|---|---|---|
| footballorganisertoolkit/cli.py:316-328 | `create_cmd` calls `create_event` with `location_data=`, `meetup_prior=` and `owner_ids=`. `create_event` (spond_client.py:49-59) has no such parameters and no `**kwargs`. That spond_client.py also defines no `geocode`, which cli.py:11 imports, so cli.py was written against another version of it, which may take these arguments. | Any confirmed `create` that is not a preview: the call raises `TypeError` at `location_data`, and no event is created. | Pass only the arguments `create_event` takes. Those are the fields of the create request modelled here. | medium (not executed; the spond_client.py shown is not the version cli.py imports) | `Compose.CommandCallAsWritten` | `Compose.CommandCallCorrected` |
| footballorganisertoolkit/cli.py:409-418 | The `batch-create` submission loop passes `owner_ids=`, which `create_event` (spond_client.py:49-59) does not take. The same caveat applies: that spond_client.py is not the version cli.py imports. | Any confirmed batch with at least one row: the first call raises `TypeError` at `owner_ids`, and no event is created. | The same call without `owner_ids`. | medium (not executed; the spond_client.py shown is not the version cli.py imports) | `Batch.BatchCallAsWritten` | `Batch.BatchCallCorrected` |

The rest of the model uses the corrected calls. `Compose.CommandPayload`
and `Batch.BatchCreate` describe the requests that would be sent. With
these calls corrected, the venue record, the lead time and the co-host
list are still computed but are not sent: `create_event` has nowhere to
put them.

## Left out

- Network and platform calls are left out. This covers logging in, the HTTP post and its error path at spond_client.py:104-112, the platform's answers, `update_event`'s own client call, and `list_upcoming_events`. All are I/O.
- `geocode` is not modelled. Its answer is a parameter (`geocoded`), and `Compose.GeocoderQuery` and `UpdatePayload.UpdateQuery` state when it is asked.
- The configuration (config.py) is left out. The group id is a parameter.
- The command-line parser, the terminal and the file reader are inputs. `click` parses `--date` to a date before the model begins; the preview flag and the confirmation are `Batch.BatchCreate`'s `dryRun` and `confirmed`; each CSV row is a map from header to value.
- The echoed preview lines are left out. They are display only and change nothing that is sent. They include the `strftime('%a %d %b ...')` dates and the "Event created" line.
- `datetime.utcnow()` is not modelled; it is a clock.
- Microseconds are not modelled. Every datetime the toolkit builds has none, and the wire format writes a literal `.000`.
- `invite_all` is not modelled: `create_event` never reads it.
- Coordinates of the home venue are kept as literal text. No computation touches them, and Dafny has no floating point.
- `Timestamp.ParseDate` models `%Y` as exactly four ASCII digits, and `int()` is modelled on ASCII digits only. Python also accepts other Unicode decimal digits.
- `Timestamp.FormatTimestamp` writes a year below 1000 zero-padded to four digits, so every wire timestamp is 24 characters; this is a modelling choice. For such years `strftime`'s `%Y` depends on the platform. With glibc, as CPython 3.12 uses on Linux, the year is written without padding (`1-01-01T00:00:00.000Z`, 21 characters); other C libraries and other CPython releases may pad it. Years 1000..9999 are written the same everywhere.
- `Timestamp.ParseDate` states only that a parsed date is a real date in years 1..9999. Its exact grammar is in its body, and `Timestamp.ParseFormatDate` states the round trip.
- `Summary.StartField` and the other listing functions take each event field as an optional string. An event whose `startTimestamp` or `location` is present but `null`, or of another type, is not modelled.
- `Batch` follows the code: no row is isolated, and the first failing row aborts the command before anything is sent.
- `Compose.CommandRequest` and `Batch.RowRequest` state only that the request has valid datetimes. What each request carries is stated by `Compose.CommandPayload` and `Batch.RowPayload`.
