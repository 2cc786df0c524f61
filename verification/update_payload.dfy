/** The change set `update_event` sends for an existing event: a key for
    each argument that was supplied and for nothing else. The geocoder
    is not called here: its answer is a parameter, and `UpdateQuery`
    says which text, if any, would be sent to it. */
module UpdatePayload {
  import opened Wrappers
  import opened Civil
  import opened Timestamp
  import opened Json

  /** The optional arguments of `update_event`; `None` is an argument
      left at its default. */
  datatype UpdateArgs = UpdateArgs(
    heading: Option<string>,
    start: Option<DateTime>,
    end: Option<DateTime>,
    meetupPrior: Option<int>,
    description: Option<string>,
    locationQuery: Option<string>,
    locationData: Option<Members>)

  /** Datetimes passed in are real datetimes in years 1..9999. */
  predicate ValidArgs(a: UpdateArgs) {
    (a.start.Some? ==> ValidDateTime(a.start.value)) && (a.end.Some? ==> ValidDateTime(a.end.value))
  }

  /** The `OverflowError` of `start - timedelta(minutes=meetup_prior)`
      when the meetup falls outside years 1..9999. */
  datatype UpdateError = MeetupOverflow

  /** Every key the change set may hold, in the order they are set. */
  const UpdateKeys: seq<string> :=
    ["heading", "startTimestamp", "meetupTimestamp", "meetupPrior", "endTimestamp", "description", "location"]

  /** The text sent to the geocoder: the query, and only when no venue
      record was supplied and the meetup time, computed first, did not
      overflow. */
  function UpdateQuery(a: UpdateArgs): (q: Option<string>)
    requires ValidArgs(a)
    ensures q.Some? <==> a.locationData.None? && a.locationQuery.Some? && Meetup(a).Ok?
    ensures q.Some? ==> q == a.locationQuery
  {
    if a.locationData.None? && Meetup(a).Ok? then a.locationQuery else None
  }

  /** The venue that goes into the change set: the supplied record, else
      the geocoder's answer to the query, else none. An empty record
      counts as supplied (`is not None`). */
  function UpdateLocation(a: UpdateArgs, geocoded: Option<Members>): (loc: Option<Members>)
    ensures a.locationData.Some? ==> loc == a.locationData
    ensures a.locationData.None? && a.locationQuery.Some? ==> loc == geocoded
    ensures a.locationData.None? && a.locationQuery.None? ==> loc == None
  {
    if a.locationData.Some? then a.locationData
    else if a.locationQuery.Some? then geocoded
    else None
  }

  /** The wire timestamp of a datetime, when one was given. */
  function WireTime(t: Option<DateTime>): (w: Option<string>)
    requires t.Some? ==> ValidDateTime(t.value)
    ensures w.Some? <==> t.Some?
    ensures t.Some? ==> w == Some(FormatTimestamp(t.value))
  {
    if t.Some? then Some(FormatTimestamp(t.value)) else None
  }

  /** `start - timedelta(minutes=meetup_prior)` when both were given. */
  function Meetup(a: UpdateArgs): (r: Result<Option<DateTime>, UpdateError>)
    requires ValidArgs(a)
    ensures r.Ok? && r.value.Some? ==> && a.start.Some? && a.meetupPrior.Some?
                                        && ValidDateTime(r.value.value)
                                        && Minutes(r.value.value) == Minutes(a.start.value) - a.meetupPrior.value
                                        && r.value.value.second == a.start.value.second
    ensures r.Ok? && r.value.None? <==> a.start.None? || a.meetupPrior.None?
    ensures r.Err? <==> a.start.Some? && a.meetupPrior.Some? && AddMinutes(a.start.value, -a.meetupPrior.value).None?
  {
    if a.start.Some? && a.meetupPrior.Some? then
      match AddMinutes(a.start.value, -a.meetupPrior.value)
      case None => Err(MeetupOverflow)
      case Some(meetup) => Ok(Some(meetup))
    else Ok(None)
  }

  /** What goes under each key, when anything does: the texts as given,
      the datetimes already in the wire format, the lead time (set only
      together with the meetup) and the venue record. */
  datatype Change = Change(
    heading: Option<string>,
    start: Option<string>,
    meetup: Option<string>,
    meetupPrior: Option<int>,
    end: Option<string>,
    description: Option<string>,
    location: Option<Members>)

  /** The change for the arguments, the geocoder's answer and the meetup
      time. */
  function ChangeOf(a: UpdateArgs, geocoded: Option<Members>, meetup: Option<DateTime>): (c: Change)
    requires ValidArgs(a) && (meetup.Some? ==> ValidDateTime(meetup.value))
    ensures c.start == WireTime(a.start) && c.end == WireTime(a.end) && c.meetup == WireTime(meetup)
  {
    Change(a.heading, WireTime(a.start), WireTime(meetup),
           if meetup.Some? then a.meetupPrior else None,
           WireTime(a.end), a.description, UpdateLocation(a, geocoded))
  }

  /** The text as a JSON string, when one was given. */
  function AsText(s: Option<string>): (j: Option<Json>)
    ensures j.Some? <==> s.Some?
  {
    if s.Some? then Some(JString(s.value)) else None
  }

  /** The value for each of `UpdateKeys`, in order. */
  function Slots(c: Change): (vs: seq<Option<Json>>)
    ensures |vs| == |UpdateKeys|
  {
    [AsText(c.heading),
     AsText(c.start),
     AsText(c.meetup),
     if c.meetupPrior.Some? then Some(JInt(c.meetupPrior.value)) else None,
     AsText(c.end),
     AsText(c.description),
     if c.location.Some? then Some(JObject(c.location.value)) else None]
  }

  /** The change set of a change: the keys whose value is set, in order. */
  function ChangeSet(c: Change): (m: Members)
    ensures forall k :: k in Keys(m) ==> k in UpdateKeys
  {
    Present(Candidates(UpdateKeys, Slots(c)))
  }

  /** The change set, or the overflow of the meetup time. */
  function UpdateMap(a: UpdateArgs, geocoded: Option<Members>): (r: Result<Members, UpdateError>)
    requires ValidArgs(a)
    ensures r.Err? <==> a.start.Some? && a.meetupPrior.Some? && AddMinutes(a.start.value, -a.meetupPrior.value).None?
    ensures r.Ok? ==> (forall k :: k in Keys(r.value) ==> k in UpdateKeys) && UniqueKeys(r.value)
  {
    var meetup :- Meetup(a);
    ChangeUnique(ChangeOf(a, geocoded, meetup));
    Ok(ChangeSet(ChangeOf(a, geocoded, meetup)))
  }

  lemma UpdateKeysDistinct()
    ensures Distinct(UpdateKeys)
  {
  }

  /** Under each key the change set holds exactly that key's slot. */
  lemma SlotLookup(c: Change, i: int)
    requires 0 <= i < |UpdateKeys|
    ensures Get(ChangeSet(c), UpdateKeys[i]) == Slots(c)[i]
  {
    UpdateKeysDistinct();
    PresentGet(Candidates(UpdateKeys, Slots(c)), i);
  }

  /** A key is present exactly when its slot holds a value. */
  lemma SlotPresent(c: Change, i: int)
    requires 0 <= i < |UpdateKeys|
    ensures UpdateKeys[i] in Keys(ChangeSet(c)) <==> Slots(c)[i].Some?
  {
    SlotLookup(c, i);
    GetFound(ChangeSet(c), UpdateKeys[i]);
  }

  /** Each key of a change set is present exactly when its part of the
      change is. */
  lemma ChangeKeys(c: Change)
    ensures var ks := Keys(ChangeSet(c));
            && ("heading" in ks <==> c.heading.Some?)
            && ("startTimestamp" in ks <==> c.start.Some?)
            && ("meetupTimestamp" in ks <==> c.meetup.Some?)
            && ("meetupPrior" in ks <==> c.meetupPrior.Some?)
            && ("endTimestamp" in ks <==> c.end.Some?)
            && ("description" in ks <==> c.description.Some?)
            && ("location" in ks <==> c.location.Some?)
  {
    SlotPresent(c, 0);
    SlotPresent(c, 1);
    SlotPresent(c, 2);
    SlotPresent(c, 3);
    SlotPresent(c, 4);
    SlotPresent(c, 5);
    SlotPresent(c, 6);
  }

  /** Each part of a change that is set is found under its key. */
  lemma ChangeValues(c: Change)
    ensures var m := ChangeSet(c);
            && (c.heading.Some? ==> Get(m, "heading") == Some(JString(c.heading.value)))
            && (c.start.Some? ==> Get(m, "startTimestamp") == Some(JString(c.start.value)))
            && (c.meetup.Some? ==> Get(m, "meetupTimestamp") == Some(JString(c.meetup.value)))
            && (c.meetupPrior.Some? ==> Get(m, "meetupPrior") == Some(JInt(c.meetupPrior.value)))
            && (c.end.Some? ==> Get(m, "endTimestamp") == Some(JString(c.end.value)))
            && (c.description.Some? ==> Get(m, "description") == Some(JString(c.description.value)))
            && (c.location.Some? ==> Get(m, "location") == Some(JObject(c.location.value)))
  {
    SlotLookup(c, 0);
    SlotLookup(c, 1);
    SlotLookup(c, 2);
    SlotLookup(c, 3);
    SlotLookup(c, 4);
    SlotLookup(c, 5);
    SlotLookup(c, 6);
  }

  /** No key occurs twice in a change set. */
  lemma ChangeUnique(c: Change)
    ensures UniqueKeys(ChangeSet(c))
  {
    UpdateKeysDistinct();
    PresentUnique(Candidates(UpdateKeys, Slots(c)));
  }

  /** A key is in the change set exactly when its argument was supplied
      (both `start` and `meetup_prior` for the meetup keys; a venue
      record, or a query the geocoder answered, for `location`); no
      other key appears and none occurs twice. */
  lemma UpdateKeysSupplied(a: UpdateArgs, geocoded: Option<Members>, m: Members)
    requires ValidArgs(a) && UpdateMap(a, geocoded) == Ok(m)
    ensures var ks := Keys(m);
            && ("heading" in ks <==> a.heading.Some?)
            && ("startTimestamp" in ks <==> a.start.Some?)
            && ("meetupTimestamp" in ks <==> a.start.Some? && a.meetupPrior.Some?)
            && ("meetupPrior" in ks <==> a.start.Some? && a.meetupPrior.Some?)
            && ("endTimestamp" in ks <==> a.end.Some?)
            && ("description" in ks <==> a.description.Some?)
            && ("location" in ks <==> a.locationData.Some? || (a.locationQuery.Some? && geocoded.Some?))
            && (forall k :: k in ks ==> k in UpdateKeys)
            && UniqueKeys(m)
  {
    var c := ChangeOf(a, geocoded, Meetup(a).value);
    ChangeKeys(c);
    ChangeUnique(c);
  }

  /** Each supplied value is found under its key: the heading and the
      description verbatim, the start and end as wire timestamps, and
      the venue record. */
  lemma UpdateValues(a: UpdateArgs, geocoded: Option<Members>, m: Members)
    requires ValidArgs(a) && UpdateMap(a, geocoded) == Ok(m)
    ensures a.heading.Some? ==> Get(m, "heading") == Some(JString(a.heading.value))
    ensures a.start.Some? ==> Get(m, "startTimestamp") == Some(JString(FormatTimestamp(a.start.value)))
    ensures a.end.Some? ==> Get(m, "endTimestamp") == Some(JString(FormatTimestamp(a.end.value)))
    ensures a.description.Some? ==> Get(m, "description") == Some(JString(a.description.value))
    ensures UpdateLocation(a, geocoded).Some? ==> Get(m, "location") == Some(JObject(UpdateLocation(a, geocoded).value))
  {
    ChangeValues(ChangeOf(a, geocoded, Meetup(a).value));
  }

  /** With both a start and a lead time, the change set holds the lead
      time and the wire timestamp of the start moved back by it, which
      reads back to a datetime that many minutes earlier, at the same
      second. */
  lemma UpdateMeetupValues(a: UpdateArgs, geocoded: Option<Members>, m: Members)
    requires ValidArgs(a) && UpdateMap(a, geocoded) == Ok(m)
    requires a.start.Some? && a.meetupPrior.Some?
    ensures Get(m, "meetupPrior") == Some(JInt(a.meetupPrior.value))
    ensures Get(m, "meetupTimestamp").Some? && Get(m, "meetupTimestamp").value.JString?
    ensures var meetup := ParseTimestamp(Get(m, "meetupTimestamp").value.s);
            && meetup.Some?
            && Minutes(meetup.value) == Minutes(a.start.value) - a.meetupPrior.value
            && meetup.value.second == a.start.value.second
  {
    var t := Meetup(a).value.value;
    ChangeValues(ChangeOf(a, geocoded, Some(t)));
    ParseFormatTimestamp(t);
  }

  /** When no query is sent, the geocoder's answer cannot matter. */
  lemma UpdateGeocoderUnused(a: UpdateArgs, g1: Option<Members>, g2: Option<Members>)
    requires ValidArgs(a)
    requires UpdateQuery(a).None?
    ensures UpdateMap(a, g1) == UpdateMap(a, g2)
  {
    if Meetup(a).Ok? {
      assert UpdateLocation(a, g1) == UpdateLocation(a, g2);
      assert ChangeOf(a, g1, Meetup(a).value) == ChangeOf(a, g2, Meetup(a).value);
    } else {
      assert UpdateMap(a, g1) == Err(MeetupOverflow) == UpdateMap(a, g2);
    }
  }

  /** With nothing supplied the change set is empty. */
  lemma EmptyUpdate(geocoded: Option<Members>)
    ensures UpdateMap(UpdateArgs(None, None, None, None, None, None, None), geocoded) == Ok([])
  {
    var c := Change(None, None, None, None, None, None, None);
    var es := Candidates(UpdateKeys, Slots(c));
    assert Present(es[6..]) == [];
    assert Present(es[5..]) == [];
    assert Present(es[4..]) == [];
    assert Present(es[3..]) == [];
    assert Present(es[2..]) == [];
    assert Present(es[1..]) == [];
  }
}
