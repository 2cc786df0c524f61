/** The `batch-create` command: every row of the events file becomes one
    event, in file order, with no preset and no meetup time. Rows are
    composed one after the other and the first row that raises stops
    the command, so nothing is submitted unless every row composed. */
module Batch {
  import opened Wrappers
  import opened Text
  import opened Numerals
  import opened Civil
  import opened Timestamp
  import opened Json
  import opened CreatePayload
  import Compose
  import Templates

  /** One row as the CSV reader yields it: the value of each header
      column. A column missing from the header is absent from the map;
      a column the row is too short to fill maps to `None`. */
  type Row = map<string, Option<string>>

  /** The composed row: no meetup, and a location only when the column
      holds more than whitespace. */
  datatype RowEvent = RowEvent(
    heading: string,
    start: DateTime,
    end: DateTime,
    duration: int,
    location: Option<string>,
    description: string)

  datatype RowError =
    | MissingColumn(column: string)  // KeyError: a required column is not in the header
    | NoValue(column: string)        // AttributeError: `None.strip()` on a short row
    | BadDuration                    // ValueError from int() on the duration
    | BadDate                        // ValueError from strptime(date, "%Y-%m-%d")
    | BadTime                        // ValueError: the time is not two integers around one ':'
    | TimeOutOfRange                 // ValueError from replace(): hour or minute out of range
    | DateOverflow                   // OverflowError: the end falls outside years 1..9999

  /** Start and end are real datetimes in years 1..9999. */
  predicate ValidEvent(e: RowEvent) {
    ValidDateTime(e.start) && ValidDateTime(e.end)
  }

  /** The first failing row (counted from 0) and what it raised. */
  datatype BatchError = BatchError(row: nat, error: RowError)

  /** `row[column].strip()`. */
  function Field(row: Row, column: string): (r: Result<string, RowError>)
    ensures column !in row <==> r == Err(MissingColumn(column))
    ensures column in row && row[column].None? <==> r == Err(NoValue(column))
    ensures r.Ok? ==> column in row && row[column].Some? && r.value == Strip(row[column].value)
  {
    if column !in row then Err(MissingColumn(column))
    else match row[column]
      case None => Err(NoValue(column))
      case Some(v) => Ok(Strip(v))
  }

  /** `row.get(column, default).strip()`. */
  function FieldOr(row: Row, column: string, default: string): (r: Result<string, RowError>)
    ensures column in row && row[column].None? <==> r == Err(NoValue(column))
    ensures r.Ok? ==> r.value == Strip(if column in row then row[column].value else default)
  {
    if column !in row then Ok(Strip(default))
    else match row[column]
      case None => Err(NoValue(column))
      case Some(v) => Ok(Strip(v))
  }

  /** The duration column's text: blank (or missing) means 90. */
  function DurationText(text: string): string {
    if text == "" then "90" else text
  }

  /** What the command reads out of a row before it parses the date and
      the time. */
  datatype Columns = Columns(
    heading: string,
    date: string,
    time: string,
    duration: int,
    location: Option<string>,
    description: string)

  /** The three required columns, stripped: heading, date and time. */
  function RequiredColumns(row: Row): Result<(string, string, string), RowError> {
    var heading :- Field(row, "heading");
    var date :- Field(row, "date");
    var time :- Field(row, "time");
    Ok((heading, date, time))
  }

  /** The optional columns: the duration (blank or missing is 90, read
      with `int()`), the location (blank is none) and the description
      (missing is empty). */
  function OptionalColumns(row: Row): Result<(int, Option<string>, string), RowError> {
    var durationText :- FieldOr(row, "duration_mins", "90");
    var duration :- ParseInt(DurationText(durationText)).ToResult(BadDuration);
    var location :- FieldOr(row, "location", "");
    var description :- FieldOr(row, "description", "");
    Ok((duration, if location == "" then None else Some(location), description))
  }

  /** The columns in the order the command reads them. */
  function ReadColumns(row: Row): Result<Columns, RowError> {
    var required :- RequiredColumns(row);
    var optional :- OptionalColumns(row);
    Ok(Columns(required.0, required.1, required.2, optional.0, optional.1, optional.2))
  }

  /** The date, the start time and the end of a row. */
  function Schedule(c: Columns): (r: Result<RowEvent, RowError>)
    ensures r == Err(BadDate) <==> ParseDate(c.date).None?
    ensures r == Err(BadTime) <==> ParseDate(c.date).Some? && ParseClock(c.time).None?
    ensures r == Err(TimeOutOfRange) <==> && ParseDate(c.date).Some? && ParseClock(c.time).Some?
                                          && var (h, m) := ParseClock(c.time).value;
                                             !(0 <= h < 24 && 0 <= m < 60)
    ensures r == Err(DateOverflow) <==> && ParseDate(c.date).Some? && ParseClock(c.time).Some?
                                        && var (h, m) := ParseClock(c.time).value;
                                           && AtClock(ParseDate(c.date).value, h, m).Some?
                                           && AddMinutes(AtClock(ParseDate(c.date).value, h, m).value, c.duration).None?
    ensures r.Ok? <==> && ParseDate(c.date).Some? && ParseClock(c.time).Some?
                       && var (h, m) := ParseClock(c.time).value;
                          && AtClock(ParseDate(c.date).value, h, m).Some?
                          && AddMinutes(AtClock(ParseDate(c.date).value, h, m).value, c.duration).Some?
    ensures r.Ok? ==> && ParseDate(c.date) == Some(r.value.start.date)
                      && ParseClock(c.time) == Some((r.value.start.hour, r.value.start.minute))
                      && ValidDateTime(r.value.start) && ValidDateTime(r.value.end)
                      && r.value.start.second == 0 && r.value.end.second == 0
                      && Minutes(r.value.end) == Minutes(r.value.start) + c.duration
                      && r.value.duration == c.duration
                      && r.value.heading == c.heading && r.value.description == c.description
                      && r.value.location == c.location
  {
    var date :- ParseDate(c.date).ToResult(BadDate);
    var clock :- ParseClock(c.time).ToResult(BadTime);
    var start :- AtClock(date, clock.0, clock.1).ToResult(TimeOutOfRange);
    var end :- AddMinutes(start, c.duration).ToResult(DateOverflow);
    Ok(RowEvent(c.heading, start, end, c.duration, c.location, c.description))
  }

  /** One row: its columns, then its schedule. */
  function ComposeRow(row: Row): (r: Result<RowEvent, RowError>) {
    var c :- ReadColumns(row);
    Schedule(c)
  }

  /** A row stops at the first required column it cannot read, in the
      order heading, date, time: a column missing from the header, or
      no value in a row too short to fill it. */
  lemma RowRequiredFailure(row: Row)
    ensures Field(row, "heading").Err? ==> ComposeRow(row) == Err(Field(row, "heading").error)
    ensures Field(row, "heading").Ok? && Field(row, "date").Err? ==> ComposeRow(row) == Err(Field(row, "date").error)
    ensures Field(row, "heading").Ok? && Field(row, "date").Ok? && Field(row, "time").Err? ==>
              ComposeRow(row) == Err(Field(row, "time").error)
  {
  }

  /** Once the required columns are read, a duration `int()` rejects
      fails the row before its date is looked at. */
  lemma RowBadDuration(row: Row)
    requires RequiredColumns(row).Ok?
    requires FieldOr(row, "duration_mins", "90").Ok?
    requires ParseInt(DurationText(FieldOr(row, "duration_mins", "90").value)).None?
    ensures ComposeRow(row) == Err(BadDuration)
  {
  }

  /** What a composed row holds: the stripped heading; a start on the
      parsed date at the parsed hour and minute; an end `duration`
      minutes later; the duration as `int()` reads the column (90 when
      blank or missing); the stripped location, none when blank; and
      the stripped description, empty when missing. */
  lemma RowComposed(row: Row)
    requires ComposeRow(row).Ok?
    ensures var e := ComposeRow(row).value;
            && Field(row, "heading") == Ok(e.heading)
            && Field(row, "date").Ok? && ParseDate(Field(row, "date").value) == Some(e.start.date)
            && Field(row, "time").Ok? && ParseClock(Field(row, "time").value) == Some((e.start.hour, e.start.minute))
            && e.start.second == 0
            && ValidDateTime(e.start) && ValidDateTime(e.end)
            && Minutes(e.end) == Minutes(e.start) + e.duration
            && FieldOr(row, "duration_mins", "90").Ok?
            && ParseInt(DurationText(FieldOr(row, "duration_mins", "90").value)) == Some(e.duration)
            && FieldOr(row, "location", "") == Ok(e.location.GetOr(""))
            && e.location != Some("")
            && FieldOr(row, "description", "") == Ok(e.description)
  {
    var c := ReadColumns(row).value;
    assert ComposeRow(row) == Schedule(c);
    ColumnsRead(row);
  }

  /** The columns of a row that could be read. */
  lemma ColumnsRead(row: Row)
    requires ReadColumns(row).Ok?
    ensures var c := ReadColumns(row).value;
            && Field(row, "heading") == Ok(c.heading)
            && Field(row, "date") == Ok(c.date)
            && Field(row, "time") == Ok(c.time)
            && FieldOr(row, "duration_mins", "90").Ok?
            && ParseInt(DurationText(FieldOr(row, "duration_mins", "90").value)) == Some(c.duration)
            && FieldOr(row, "location", "") == Ok(c.location.GetOr(""))
            && c.location != Some("")
            && FieldOr(row, "description", "") == Ok(c.description)
  {
    var c := ReadColumns(row).value;
    RequiredRead(row);
    OptionalRead(row);
    assert RequiredColumns(row) == Ok((c.heading, c.date, c.time));
    assert OptionalColumns(row) == Ok((c.duration, c.location, c.description));
  }

  /** The required columns that were read are the stripped values. */
  lemma RequiredRead(row: Row)
    requires RequiredColumns(row).Ok?
    ensures var r := RequiredColumns(row).value;
            Field(row, "heading") == Ok(r.0) && Field(row, "date") == Ok(r.1) && Field(row, "time") == Ok(r.2)
  {
  }

  /** The optional columns that were read: the duration as `int()` reads
      its text, the location text (none for blank) and the description. */
  lemma OptionalRead(row: Row)
    requires OptionalColumns(row).Ok?
    ensures var r := OptionalColumns(row).value;
            && FieldOr(row, "duration_mins", "90").Ok?
            && ParseInt(DurationText(FieldOr(row, "duration_mins", "90").value)) == Some(r.0)
            && FieldOr(row, "location", "") == Ok(r.1.GetOr(""))
            && r.1 != Some("")
            && FieldOr(row, "description", "") == Ok(r.2)
  {
    var text := FieldOr(row, "duration_mins", "90");
    assert text.Ok?;
    var duration := ParseInt(DurationText(text.value));
    assert duration.Some?;
    var location := FieldOr(row, "location", "");
    assert location.Ok?;
    var description := FieldOr(row, "description", "");
    assert description.Ok?;
    assert OptionalColumns(row).value
           == (duration.value, if location.value == "" then None else Some(location.value), description.value);
  }

  /** A missing duration column, or one holding only whitespace, means
      90 minutes. */
  lemma DefaultDuration(row: Row)
    requires "duration_mins" !in row || (row["duration_mins"].Some? && AllSpace(row["duration_mins"].value))
    ensures FieldOr(row, "duration_mins", "90").Ok?
    ensures ParseInt(DurationText(FieldOr(row, "duration_mins", "90").value)) == Some(90)
  {
    assert DurationText(FieldOr(row, "duration_mins", "90").value) == "90" by {
      if "duration_mins" in row {
        StripAllSpace(row["duration_mins"].value);
      } else {
        StripNoSpace("90");
      }
    }
    NinetyParses();
  }

  /** `int("90") == 90`. */
  lemma NinetyParses()
    ensures ParseInt("90") == Some(90)
  {
    ParseDigits("90");
    assert "90"[..1] == "9";
  }

  /** Stripping text that is all whitespace leaves nothing. */
  lemma StripAllSpace(s: string)
    requires AllSpace(s)
    ensures Strip(s) == ""
  {
  }

  /** A row's schedule is the one the `create` command, given the same
      heading, date, time, duration and description and neither preset,
      would compose: the same heading, description, start and end. */
  lemma ScheduleAgreesWithCreate(c: Columns)
    requires Schedule(c).Ok?
    ensures var e := Schedule(c).value;
            var raw := Compose.RawEvent(c.heading, e.start.date, Some(c.time), Some(c.duration),
                                        Some(c.description), None, Some(0), false, false);
            var k := Compose.Compose(raw, None);
            && k.Ok?
            && k.value.heading == e.heading && k.value.description == e.description
            && k.value.start == e.start && k.value.end == e.end
  {
    var e := Schedule(c).value;
    var raw := Compose.RawEvent(c.heading, e.start.date, Some(c.time), Some(c.duration),
                                Some(c.description), None, Some(0), false, false);
    ScheduleSteps(c);
    Compose.PlainCompose(raw, e.start, e.end);
  }

  /** The steps of a schedule that succeeded. */
  lemma ScheduleSteps(c: Columns)
    requires Schedule(c).Ok?
    ensures var e := Schedule(c).value;
            && ParseClock(c.time) == Some((e.start.hour, e.start.minute))
            && AtClock(e.start.date, e.start.hour, e.start.minute) == Some(e.start)
            && AddMinutes(e.start, c.duration) == Some(e.end)
  {
  }

  /** The outcomes of the rows in order, stopping at the first failure:
      the loop of the command before anything is submitted. */
  method Collect(results: seq<Result<RowEvent, RowError>>) returns (r: Result<seq<RowEvent>, BatchError>)
    ensures r.Ok? <==> forall i :: 0 <= i < |results| ==> results[i].Ok?
    ensures r.Ok? ==> |r.value| == |results|
                      && forall i :: 0 <= i < |results| ==> r.value[i] == results[i].value
    ensures r.Err? ==> && r.error.row < |results|
                       && results[r.error.row] == Err(r.error.error)
                       && forall i :: 0 <= i < r.error.row ==> results[i].Ok?
  {
    var events: seq<RowEvent> := [];
    var i := 0;
    while i < |results|
      invariant 0 <= i <= |results|
      invariant |events| == i
      invariant forall j :: 0 <= j < i ==> results[j].Ok? && events[j] == results[j].value
    {
      match results[i]
      case Err(e) =>
        return Err(BatchError(i, e));
      case Ok(event) =>
        events := events + [event];
      i := i + 1;
    }
    return Ok(events);
  }

  /** What each row composes to, in file order. */
  function RowResults(rows: seq<Row>): (rs: seq<Result<RowEvent, RowError>>)
    ensures |rs| == |rows|
    ensures forall i :: 0 <= i < |rows| ==> rs[i].Ok? ==> ValidEvent(rs[i].value)
  {
    if |rows| == 0 then [] else [ComposeRow(rows[0])] + RowResults(rows[1..])
  }

  /** The outcome listed for a row is what that row composes to. */
  lemma {:induction false} RowResultsAt(rows: seq<Row>, i: int)
    requires 0 <= i < |rows|
    ensures RowResults(rows)[i] == ComposeRow(rows[i])
  {
    if i > 0 {
      RowResultsAt(rows[1..], i - 1);
      assert rows[1..][i - 1] == rows[i];
    }
  }

  /** Every row of the file composed. */
  predicate AllComposed(rows: seq<Row>) {
    forall i :: 0 <= i < |rows| ==> RowResults(rows)[i].Ok?
  }

  /** Every row composed in file order, or the first row that raised. */
  method ComposeBatch(rows: seq<Row>) returns (r: Result<seq<RowEvent>, BatchError>)
    ensures r.Ok? <==> AllComposed(rows)
    ensures r.Ok? ==> |r.value| == |rows|
                      && forall i :: 0 <= i < |rows| ==> r.value[i] == RowResults(rows)[i].value
    ensures r.Err? ==> && r.error.row < |rows|
                       && RowResults(rows)[r.error.row] == Err(r.error.error)
                       && forall i :: 0 <= i < r.error.row ==> RowResults(rows)[i].Ok?
  {
    var rs := RowResults(rows);
    assert forall i :: 0 <= i < |rows| ==> rs[i] == RowResults(rows)[i];
    r := Collect(rs);
  }

  /** The create request for one composed row: no subgroup. */
  function RowRequest(groupId: string, e: RowEvent): (q: CreateRequest)
    requires ValidEvent(e)
    ensures ValidRequest(q)
  {
    CreateRequest(groupId, e.heading, e.start, e.end, e.description, e.location, None)
  }

  /** What the platform reads from the record sent for a row: the row's
      heading, description, start, end and free-text location, and the
      group. */
  lemma RowPayload(groupId: string, e: RowEvent)
    requires ValidEvent(e)
    ensures ReadBack(Payload(RowRequest(groupId, e)))
            == Some(CreateRequest(groupId, e.heading, e.start, e.end, e.description, e.location, None))
  {
    ReadBackPayload(RowRequest(groupId, e));
  }

  /** The keyword arguments of the submission loop's `create_event`
      call as written, in order. */
  const BatchKeywords: seq<Keyword> :=
    [GroupId, Heading, Start, End, Description, Location, OwnerIds]

  /** As written, the call passes `owner_ids`, for which `create_event`
      has no parameter: the first submission stops with a `TypeError`
      and no event of the batch is created. */
  lemma BatchCallAsWritten()
    ensures UnexpectedKeyword(BatchKeywords) == Some(OwnerIds)
  {
    UnexpectedAt(BatchKeywords, 6);
  }

  /** The call as this model makes it: without `owner_ids` it binds and
      keeps every other argument; those are the fields of `RowRequest`
      but the subgroup, which is `None` there. */
  lemma BatchCallCorrected()
    ensures var kept := Without(BatchKeywords, {OwnerIds});
            && UnexpectedKeyword(kept) == None
            && forall k :: 0 <= k < |BatchKeywords| && BatchKeywords[k] in CreateEventParameters ==> BatchKeywords[k] in kept
  {
    assert forall k :: 0 <= k < |BatchKeywords| ==> BatchKeywords[k] == OwnerIds || BatchKeywords[k] in CreateEventParameters;
    DropUnbound(BatchKeywords, {OwnerIds});
  }

  /** How a batch ends. */
  datatype Outcome =
    | NoEvents                        // the file has no rows
    | Failed(failure: BatchError)     // a row raised; nothing was submitted
    | DryRun(events: seq<RowEvent>)   // previewed only
    | Cancelled(events: seq<RowEvent>) // the user declined
    | Submitted(requests: seq<CreateRequest>) // one create request per row, in order

  /** The whole command with the preview flag and the user's answer to
      the confirmation as inputs. */
  method BatchCreate(rows: seq<Row>, groupId: string, dryRun: bool, confirmed: bool) returns (o: Outcome)
    ensures |rows| == 0 <==> o == NoEvents
    ensures o.Failed? <==> |rows| > 0 && !AllComposed(rows)
    ensures o.Failed? ==> && o.failure.row < |rows|
                          && RowResults(rows)[o.failure.row] == Err(o.failure.error)
                          && forall i :: 0 <= i < o.failure.row ==> RowResults(rows)[i].Ok?
    ensures o.DryRun? <==> |rows| > 0 && dryRun && AllComposed(rows)
    ensures o.Cancelled? <==> |rows| > 0 && !dryRun && !confirmed && AllComposed(rows)
    ensures o.DryRun? || o.Cancelled? ==> |o.events| == |rows|
                                          && forall i :: 0 <= i < |rows| ==> o.events[i] == RowResults(rows)[i].value
    ensures o.Submitted? <==> |rows| > 0 && !dryRun && confirmed && AllComposed(rows)
    ensures o.Submitted? ==> |o.requests| == |rows|
                             && forall i :: 0 <= i < |rows| ==>
                                  RowResults(rows)[i].Ok?
                                  && o.requests[i] == RowRequest(groupId, RowResults(rows)[i].value)
  {
    if |rows| == 0 {
      return NoEvents;
    }
    var composed := ComposeBatch(rows);
    if composed.Err? {
      return Failed(composed.error);
    }
    var events := composed.value;
    assert forall i :: 0 <= i < |events| ==> ValidEvent(events[i]) by {
      var rs := RowResults(rows);
      assert forall i :: 0 <= i < |rows| ==> rs[i] == RowResults(rows)[i];
      forall i | 0 <= i < |events| ensures ValidEvent(events[i]) {
        assert rs[i].Ok? && events[i] == rs[i].value;
      }
    }
    if dryRun {
      return DryRun(events);
    }
    if !confirmed {
      return Cancelled(events);
    }
    var requests := Requests(groupId, events);
    return Submitted(requests);
  }

  /** One create request per event, in order: the submission loop. */
  method Requests(groupId: string, events: seq<RowEvent>) returns (requests: seq<CreateRequest>)
    requires forall i :: 0 <= i < |events| ==> ValidEvent(events[i])
    ensures |requests| == |events|
    ensures forall i :: 0 <= i < |events| ==> requests[i] == RowRequest(groupId, events[i])
  {
    requests := [];
    var i := 0;
    while i < |events|
      invariant 0 <= i <= |events|
      invariant |requests| == i
      invariant forall j :: 0 <= j < i ==> requests[j] == RowRequest(groupId, events[j])
    {
      requests := requests + [RowRequest(groupId, events[i])];
      i := i + 1;
    }
  }
}
