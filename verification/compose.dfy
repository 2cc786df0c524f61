/** The `create` command's composition of one event: from the options
    the user gave (most of them optional), the chosen preset and the
    geocoder's answer, to the fully specified event that would be
    previewed and submitted. The geocoder is not called here: its
    answer is a parameter, and `GeocoderQuery` says which text, if any,
    the command sends it. */
module Compose {
  import opened Wrappers
  import opened Text
  import opened Numerals
  import opened Civil
  import opened Timestamp
  import opened Json
  import opened Templates
  import opened CreatePayload

  /** The options of one `create` invocation. `date` has already been
      read by the command-line parser (`--date`, `%Y-%m-%d`). */
  datatype RawEvent = RawEvent(
    heading: string,
    date: Date,
    time: Option<string>,
    duration: Option<int>,
    description: Option<string>,
    location: Option<string>,
    meetupPrior: Option<int>,
    home: bool,
    away: bool)

  datatype ComposeError =
    | ConflictingTemplates   // click.UsageError: both --home and --away
    | BadTimeFormat          // click.BadParameter: time is not two integers around one ':'
    | TimeOutOfRange         // ValueError from replace(): hour or minute out of range
    | DateOverflow           // OverflowError: end or meetup outside years 1..9999

  /** The composed event. `locationData` is the venue record (home venue
      or geocoder answer); `locationText` is the free text passed on as
      the `location` argument, which happens only when there is no
      venue record. */
  datatype EventSpec = EventSpec(
    heading: string,
    start: DateTime,
    end: DateTime,
    meetup: DateTime,
    duration: int,
    meetupPrior: int,
    description: string,
    locationData: Option<Members>,
    locationText: Option<string>)

  /** `HOME_DEFAULTS` if `--home`, else `AWAY_DEFAULTS` if `--away`,
      else `{}`. */
  function SelectTemplate(home: bool, away: bool): Template {
    if home then Home else if away then Away else Bare
  }

  /** The three-tier rule `x if x is not None else (template.get(k) or
      hard)`: an explicit value always wins, even a falsy one; a
      template value wins only when it is truthy (`falsy` is 0 or ""). */
  function Coalesce<T(==)>(explicit: Option<T>, fromTemplate: Option<T>, falsy: T, hard: T): (r: T)
    ensures explicit.Some? ==> r == explicit.value
    ensures explicit.None? && fromTemplate.Some? && fromTemplate.value != falsy ==> r == fromTemplate.value
    ensures explicit.None? && (fromTemplate.None? || fromTemplate.value == falsy) ==> r == hard
  {
    match explicit
    case Some(v) => v
    case None =>
      match fromTemplate
      case Some(v) => if v != falsy then v else hard
      case None => hard
  }

  function ChosenTime(raw: RawEvent): string {
    Coalesce(raw.time, SelectTemplate(raw.home, raw.away).time, "", "10:00")
  }

  function ChosenDuration(raw: RawEvent): int {
    Coalesce(raw.duration, SelectTemplate(raw.home, raw.away).duration, 0, 75)
  }

  function ChosenMeetupPrior(raw: RawEvent): int {
    Coalesce(raw.meetupPrior, SelectTemplate(raw.home, raw.away).meetupPrior, 0, 30)
  }

  /** With the presets as they are, the defaults come out as: time
      10:00 in every case, duration 210 for away and 75 otherwise,
      meetup 30 minutes before; explicit values, 0 included, are kept. */
  lemma ChosenDefaults(raw: RawEvent)
    ensures ChosenTime(raw) == raw.time.GetOr("10:00")
    ensures ChosenDuration(raw) ==
            if raw.duration.Some? then raw.duration.value
            else if raw.away && !raw.home then 210 else 75
    ensures ChosenMeetupPrior(raw) == raw.meetupPrior.GetOr(30)
  {
  }

  /** The heading rule: the preset's suffix is appended for away matches
      unless the heading already contains it (literal, case-sensitive
      substring test). */
  function ApplySuffix(heading: string, away: bool, t: Template): (r: string)
    ensures r == heading || (away && t.headingSuffix.Some? && r == heading + t.headingSuffix.value)
    ensures away && t.headingSuffix.Some? ==> Contains(r, t.headingSuffix.value)
    ensures t.headingSuffix.Some? && Contains(heading, t.headingSuffix.value) ==> r == heading
    ensures away && t.headingSuffix.Some? && !Contains(heading, t.headingSuffix.value)
            ==> r == heading + t.headingSuffix.value
  {
    if away && t.headingSuffix.Some? && !Contains(heading, t.headingSuffix.value) then
      ContainsOwnSuffix(heading, t.headingSuffix.value);
      heading + t.headingSuffix.value
    else heading
  }

  /** Applying the heading rule twice is applying it once, so a heading
      that is resubmitted never collects a second suffix. */
  lemma SuffixIdempotent(heading: string, away: bool, t: Template)
    ensures ApplySuffix(ApplySuffix(heading, away, t), away, t) == ApplySuffix(heading, away, t)
  {
  }

  /** Home matches and matches without a preset keep their heading. */
  lemma SuffixOnlyAway(raw: RawEvent)
    requires !raw.away || raw.home
    ensures ApplySuffix(raw.heading, raw.away, SelectTemplate(raw.home, raw.away)) == raw.heading
  {
  }

  /** The description rule: the preset's description, a blank line, then
      the user's; either alone when the other is missing or empty. */
  function MergeDescription(user: Option<string>, t: Template): (r: string)
    ensures var base := t.description.GetOr("");
            && |r| == |base| + (if user.Some? then |user.value| + (if base != "" then 2 else 0) else 0)
            && base <= r
            && (user.Some? ==> r[|r| - |user.value|..] == user.value)
            && (user.Some? && base != "" ==> r[|base|..|base| + 2] == "\n\n")
  {
    var base := t.description.GetOr("");
    match user
    case Some(u) => if base != "" then base + "\n\n" + u else u
    case None => base
  }

  /** The text the command sends to the geocoder, if it consults it at
      all: only a non-empty `--location`, and never for a home match
      without `--location` or when the command has already stopped on
      conflicting presets. */
  function GeocoderQuery(raw: RawEvent): (q: Option<string>)
    ensures q.Some? ==> raw.location == q && q.value != "" && !(raw.home && raw.away)
    ensures raw.home && raw.location.None? ==> q.None?
    ensures !(raw.home && raw.away) && raw.location.Some? && raw.location.value != "" ==> q == raw.location
  {
    if raw.home && raw.away then None
    else if raw.home && raw.location.None? then None
    else if raw.location.Some? && raw.location.value != "" then raw.location
    else None
  }

  /** Python truthiness of the geocoder's answer (`None` and `{}` are
      false). */
  predicate Found(data: Option<Members>) {
    data.Some? && |data.value| > 0
  }

  /** The venue record and the free-text location passed on: the home
      venue for a home match without `--location`; the geocoder's answer
      for a non-empty `--location`; nothing otherwise. The free text
      goes on exactly when there is no venue record. */
  function ResolveLocation(raw: RawEvent, geocoded: Option<Members>): (r: (Option<Members>, Option<string>))
    requires !(raw.home && raw.away)
    ensures raw.home && raw.location.None? ==> r.0 == Some(HomeLocation)
    ensures GeocoderQuery(raw).Some? ==> r.0 == geocoded
    ensures !(raw.home && raw.location.None?) && GeocoderQuery(raw).None? ==> r.0 == None
    ensures r.1 == if Found(r.0) then None else raw.location
  {
    if raw.home && raw.location.None? then (Home.locationData, None)
    else if raw.location.Some? && raw.location.value != "" then
      (geocoded, if Found(geocoded) then None else raw.location)
    else (None, raw.location)
  }

  /** The start, end and meetup times: the chosen `HH:MM` on the given
      date, then the duration added and the lead time subtracted. */
  function Timing(date: Date, time: string, duration: int, prior: int): (r: Result<(DateTime, DateTime, DateTime), ComposeError>)
    requires InRange(date)
    ensures r.Err? ==> r.error != ConflictingTemplates
    ensures r == Err(BadTimeFormat) <==> ParseClock(time).None?
    ensures r == Err(TimeOutOfRange) <==>
            && ParseClock(time).Some?
            && var (h, m) := ParseClock(time).value;
               !(0 <= h < 24 && 0 <= m < 60)
    ensures r.Ok? ==>
            var (start, end, meetup) := r.value;
            && ParseClock(time) == Some((start.hour, start.minute))
            && start.date == date && start.second == 0
            && ValidDateTime(start) && ValidDateTime(end) && ValidDateTime(meetup)
            && Minutes(end) == Minutes(start) + duration
            && Minutes(meetup) == Minutes(start) - prior
            && end.second == 0 && meetup.second == 0
  {
    match ParseClock(time)
    case None => Err(BadTimeFormat)
    case Some((h, m)) =>
      match AtClock(date, h, m)
      case None => Err(TimeOutOfRange)
      case Some(start) =>
        match AddMinutes(start, duration)
        case None => Err(DateOverflow)
        case Some(end) =>
          match AddMinutes(start, -prior)
          case None => Err(DateOverflow)
          case Some(meetup) => Ok((start, end, meetup))
  }

  /** The whole composition, in the command's order: conflict check,
      defaults, heading, description, location, then the start time,
      the end and the meetup. */
  function Compose(raw: RawEvent, geocoded: Option<Members>): (r: Result<EventSpec, ComposeError>)
    requires InRange(raw.date)
    ensures raw.home && raw.away ==> r == Err(ConflictingTemplates)
    ensures r == Err(BadTimeFormat) <==> !(raw.home && raw.away) && ParseClock(ChosenTime(raw)).None?
    ensures r == Err(TimeOutOfRange) <==>
            && !(raw.home && raw.away)
            && ParseClock(ChosenTime(raw)).Some?
            && var (h, m) := ParseClock(ChosenTime(raw)).value;
               !(0 <= h < 24 && 0 <= m < 60)
    ensures r.Ok? ==>
            var e := r.value;
            && ParseClock(ChosenTime(raw)) == Some((e.start.hour, e.start.minute))
            && e.start.date == raw.date && e.start.second == 0
            && ValidDateTime(e.start) && ValidDateTime(e.end) && ValidDateTime(e.meetup)
            && e.duration == ChosenDuration(raw) && e.meetupPrior == ChosenMeetupPrior(raw)
            && Minutes(e.end) == Minutes(e.start) + e.duration
            && Minutes(e.meetup) == Minutes(e.start) - e.meetupPrior
            && e.end.second == 0 && e.meetup.second == 0
            && e.heading == ApplySuffix(raw.heading, raw.away, SelectTemplate(raw.home, raw.away))
            && e.description == MergeDescription(raw.description, SelectTemplate(raw.home, raw.away))
            && (e.locationData, e.locationText) == ResolveLocation(raw, geocoded)
  {
    if raw.home && raw.away then Err(ConflictingTemplates)
    else
      var t := SelectTemplate(raw.home, raw.away);
      var duration := ChosenDuration(raw);
      var prior := ChosenMeetupPrior(raw);
      var heading := ApplySuffix(raw.heading, raw.away, t);
      var description := MergeDescription(raw.description, t);
      var location := ResolveLocation(raw, geocoded);
      var (start, end, meetup) :- Timing(raw.date, ChosenTime(raw), duration, prior);
      Ok(EventSpec(heading, start, end, meetup, duration, prior, description, location.0, location.1))
  }

  /** The event ends after it starts exactly when the duration is
      positive, and the meetup is no later than the start exactly when
      the lead time is not negative. */
  lemma ComposeOrdering(raw: RawEvent, geocoded: Option<Members>)
    requires InRange(raw.date)
    requires Compose(raw, geocoded).Ok?
    ensures var e := Compose(raw, geocoded).value;
            && (Before(e.start, e.end) <==> e.duration > 0)
            && (!Before(e.start, e.meetup) <==> e.meetupPrior >= 0)
  {
    var e := Compose(raw, geocoded).value;
    BeforeIffEarlier(e.start, e.end);
    BeforeIffEarlier(e.start, e.meetup);
  }

  /** When the geocoder is not consulted its answer cannot matter: the
      composition is the same whatever it would have said. */
  lemma GeocoderUnused(raw: RawEvent, g1: Option<Members>, g2: Option<Members>)
    requires InRange(raw.date)
    requires GeocoderQuery(raw).None?
    ensures Compose(raw, g1) == Compose(raw, g2)
  {
    if !(raw.home && raw.away) {
      assert ResolveLocation(raw, g1) == ResolveLocation(raw, g2);
    }
  }

  /** The `create_event` call the command makes, restricted to the
      arguments the payload builder accepts. */
  function CommandRequest(groupId: string, subgroupId: Option<string>, e: EventSpec): (q: CreateRequest)
    requires ValidDateTime(e.start) && ValidDateTime(e.end)
    ensures ValidRequest(q)
  {
    CreateRequest(groupId, e.heading, e.start, e.end, e.description, e.locationText, subgroupId)
  }

  /** The keyword arguments of the command's `create_event` call as
      written, in order. */
  const CommandKeywords: seq<Keyword> := [
    GroupId, Heading, Start, End, Description, Location,
    LocationData, MeetupPrior, SubgroupId, OwnerIds]

  /** As written, the call passes `location_data`, for which
      `create_event` has no parameter: every confirmed `create` stops
      with a `TypeError` before any request is sent. */
  lemma CommandCallAsWritten()
    ensures UnexpectedKeyword(CommandKeywords) == Some(LocationData)
  {
    UnexpectedAt(CommandKeywords, 6);
  }

  /** The call as this model makes it: dropping the three arguments
      `create_event` does not take leaves a call that binds and keeps
      every argument that did; those are the fields of `CommandRequest`. */
  lemma CommandCallCorrected()
    ensures var kept := Without(CommandKeywords, {LocationData, MeetupPrior, OwnerIds});
            && UnexpectedKeyword(kept) == None
            && forall k :: 0 <= k < |CommandKeywords| && CommandKeywords[k] in CreateEventParameters ==> CommandKeywords[k] in kept
  {
    var drop := {LocationData, MeetupPrior, OwnerIds};
    assert forall k :: 0 <= k < |CommandKeywords| ==> CommandKeywords[k] in drop || CommandKeywords[k] in CreateEventParameters;
    DropUnbound(CommandKeywords, drop);
  }

  /** What the platform reads from the record the command sends: the
      composed heading, description, start and end, the group, and as
      free-text venue the `--location` text exactly when no venue record
      was found (so nothing for a home match without `--location`). */
  lemma CommandPayload(raw: RawEvent, geocoded: Option<Members>, groupId: string, subgroupId: Option<string>)
    requires InRange(raw.date)
    requires Compose(raw, geocoded).Ok?
    ensures var e := Compose(raw, geocoded).value;
            var sent := ReadBack(Payload(CommandRequest(groupId, subgroupId, e)));
            && sent.Some?
            && sent.value.heading == e.heading && sent.value.description == e.description
            && sent.value.start == e.start && sent.value.end == e.end
            && sent.value.groupId == groupId
            && sent.value.location == (if Found(e.locationData) then None else raw.location)
            && (raw.home && raw.location.None? ==> sent.value.location.None?)
  {
    var e := Compose(raw, geocoded).value;
    ReadBackPayload(CommandRequest(groupId, subgroupId, e));
    assert Found(Home.locationData);
  }

  /** Compose succeeds with the given start, end and meetup when each
      step that could fail yields them. */
  lemma ComposeSteps(raw: RawEvent, geocoded: Option<Members>, h: int, m: int, start: DateTime, end: DateTime, meetup: DateTime)
    requires InRange(raw.date) && !(raw.home && raw.away)
    requires ParseClock(ChosenTime(raw)) == Some((h, m))
    requires AtClock(raw.date, h, m) == Some(start)
    requires AddMinutes(start, ChosenDuration(raw)) == Some(end)
    requires AddMinutes(start, -ChosenMeetupPrior(raw)) == Some(meetup)
    ensures var t := SelectTemplate(raw.home, raw.away);
            var place := ResolveLocation(raw, geocoded);
            Compose(raw, geocoded)
            == Ok(EventSpec(ApplySuffix(raw.heading, raw.away, t), start, end, meetup,
                            ChosenDuration(raw), ChosenMeetupPrior(raw),
                            MergeDescription(raw.description, t), place.0, place.1))
  {
    var r := Compose(raw, geocoded);
    assert r.Ok?;
    var e := r.value;
    assert e.start == start;
    MinutesInjective(e.end, end);
    MinutesInjective(e.meetup, meetup);
  }

  /** With no preset, no location and no lead time, and every other
      option given, the composition is the given options scheduled as
      they are: the event the batch command builds for a row. */
  lemma PlainCompose(raw: RawEvent, start: DateTime, end: DateTime)
    requires InRange(raw.date) && !raw.home && !raw.away
    requires raw.time.Some? && raw.duration.Some? && raw.description.Some?
    requires raw.location.None? && raw.meetupPrior == Some(0)
    requires ParseClock(raw.time.value) == Some((start.hour, start.minute))
    requires AtClock(raw.date, start.hour, start.minute) == Some(start)
    requires AddMinutes(start, raw.duration.value) == Some(end)
    ensures Compose(raw, None)
            == Ok(EventSpec(raw.heading, start, end, start, raw.duration.value, 0, raw.description.value, None, None))
  {
    PlainChoices(raw);
    AddNoMinutes(start);
    ComposeSteps(raw, None, start.hour, start.minute, start, end, start);
  }

  /** Without a preset and without a location every option is taken as
      given. */
  lemma PlainChoices(raw: RawEvent)
    requires !raw.home && !raw.away && raw.location.None?
    requires raw.time.Some? && raw.duration.Some? && raw.description.Some? && raw.meetupPrior.Some?
    ensures ChosenTime(raw) == raw.time.value && ChosenDuration(raw) == raw.duration.value
    ensures ChosenMeetupPrior(raw) == raw.meetupPrior.value
    ensures ApplySuffix(raw.heading, raw.away, SelectTemplate(raw.home, raw.away)) == raw.heading
    ensures MergeDescription(raw.description, SelectTemplate(raw.home, raw.away)) == raw.description.value
    ensures ResolveLocation(raw, None) == (None, None)
  {
    assert SelectTemplate(raw.home, raw.away) == Bare;
  }

  /** A home match on 2026-03-07 with no time: 10:00 to 11:15 at the home
      venue, meeting at 09:30. */
  lemma HomeScenario()
    ensures var raw := RawEvent("Match vs Arsenal", Date(2026, 3, 7), None, None, None, None, None, true, false);
            var r := Compose(raw, None);
            && r.Ok?
            && r.value.start == DateTime(Date(2026, 3, 7), 10, 0, 0)
            && r.value.end == DateTime(Date(2026, 3, 7), 11, 15, 0)
            && r.value.meetup == DateTime(Date(2026, 3, 7), 9, 30, 0)
            && r.value.locationData == Some(HomeLocation)
            && r.value.locationText == None
            && r.value.description == HomeDescription
  {
    var d := Date(2026, 3, 7);
    var raw := RawEvent("Match vs Arsenal", d, None, None, None, None, None, true, false);
    ChosenDefaults(raw);
    Pad2Digits(10);
    Pad2Digits(0);
    assert "10:00" == Pad(10, 2) + ":" + Pad(0, 2);
    ParseClockPadded(10, 0);
    var start := DateTime(d, 10, 0, 0);
    HomeClock(start);
    ComposeSteps(raw, None, 10, 0, start, DateTime(d, 11, 15, 0), DateTime(d, 9, 30, 0));
  }

  lemma HomeClock(start: DateTime)
    requires start == DateTime(Date(2026, 3, 7), 10, 0, 0)
    ensures AtClock(start.date, 10, 0) == Some(start)
    ensures AddMinutes(start, 75) == Some(DateTime(start.date, 11, 15, 0))
    ensures AddMinutes(start, -30) == Some(DateTime(start.date, 9, 30, 0))
  {
    assert AddDays(start.date, 0) == start.date;
  }

  /** An away match starting 22:00 on New Year's Eve: the 210-minute
      block ends at 01:30 on the next day of the next year, and the
      heading gains the suffix. */
  lemma AwayOverMidnightScenario()
    ensures var raw := RawEvent("Match vs Chelsea", Date(2026, 12, 31), Some("22:00"), None, None, None, None, false, true);
            var r := Compose(raw, None);
            && r.Ok?
            && r.value.heading == "Match vs Chelsea" + AwaySuffix
            && r.value.start == DateTime(Date(2026, 12, 31), 22, 0, 0)
            && r.value.end == DateTime(Date(2027, 1, 1), 1, 30, 0)
            && r.value.meetup == DateTime(Date(2026, 12, 31), 21, 30, 0)
            && r.value.locationData == None
            && r.value.locationText == None
  {
    var d := Date(2026, 12, 31);
    var raw := RawEvent("Match vs Chelsea", d, Some("22:00"), None, None, None, None, false, true);
    ChosenDefaults(raw);
    Pad2Digits(22);
    Pad2Digits(0);
    assert "22:00" == Pad(22, 2) + ":" + Pad(0, 2);
    ParseClockPadded(22, 0);
    var start := DateTime(d, 22, 0, 0);
    MidnightClock(start);
    ComposeSteps(raw, None, 22, 0, start, DateTime(Date(2027, 1, 1), 1, 30, 0), DateTime(d, 21, 30, 0));
    ContainsIffOccurs("Match vs Chelsea", AwaySuffix);
  }

  lemma MidnightClock(start: DateTime)
    requires start == DateTime(Date(2026, 12, 31), 22, 0, 0)
    ensures AtClock(start.date, 22, 0) == Some(start)
    ensures AddMinutes(start, 210) == Some(DateTime(Date(2027, 1, 1), 1, 30, 0))
    ensures AddMinutes(start, -30) == Some(DateTime(start.date, 21, 30, 0))
  {
    var d := start.date;
    assert NextDay(d) == Date(2027, 1, 1);
    assert AddDays(d, 1) == AddDays(NextDay(d), 0);
    assert (22 * 60 + 210) / 1440 == 1;
    assert AddDays(d, 0) == d;
  }
}
