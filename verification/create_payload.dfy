/** The body of the scheduling platform's "create event" request: the
    nested record `create_event` posts, built from the event's heading,
    start, end, description, free-text location, group and optional
    subgroup. Everything else in the record is a fixed constant. */
module CreatePayload {
  import opened Wrappers
  import opened Civil
  import opened Timestamp
  import opened Json

  /** The arguments of one `create_event` call that reach the record. */
  datatype CreateRequest = CreateRequest(
    groupId: string,
    heading: string,
    start: DateTime,
    end: DateTime,
    description: string,
    location: Option<string>,
    subgroupId: Option<string>)

  predicate ValidRequest(q: CreateRequest) {
    ValidDateTime(q.start) && ValidDateTime(q.end)
  }

  /** The keys of the record, in the order the platform receives them. */
  const PayloadKeys: seq<string> := [
    "heading", "description", "spondType", "startTimestamp", "endTimestamp",
    "commentsDisabled", "maxAccepted", "rsvpDate", "location", "visibility",
    "participantsHidden", "autoReminderType", "autoAccept", "payment",
    "attachments", "tasks", "type", "recipients"]

  /** The keys whose values depend on the request; the others are
      constants. */
  const VariableKeys: set<string> :=
    {"heading", "description", "startTimestamp", "endTimestamp", "location", "recipients"}

  /** Python's `None`-or-string as a JSON value. */
  function OptString(s: Option<string>): (j: Json)
    ensures s.None? <==> j == JNull
    ensures s.Some? ==> j == JString(s.value)
  {
    match s
    case None => JNull
    case Some(v) => JString(v)
  }

  /** The `location` record: the free text serves as both the venue name
      and its address; no id and no coordinates. */
  function LocationRecord(location: Option<string>): Members {
    [("id", JNull), ("feature", OptString(location)), ("address", OptString(location)),
     ("latitude", JNull), ("longitude", JNull)]
  }

  /** `recipients`: the group, and its subgroup only when one is given
      and not empty (Python truthiness of `subgroup_id`). */
  function Recipients(groupId: string, subgroupId: Option<string>): Members {
    var group := [("id", JString(groupId))]
      + (if subgroupId.Some? && subgroupId.value != "" then [("subGroups", JArray([JString(subgroupId.value)]))] else []);
    [("group", JObject(group))]
  }

  /** The parts of the record that depend on the request, with the
      datetimes already written in the wire format. */
  datatype Parts = Parts(
    heading: string,
    description: string,
    start: string,
    end: string,
    location: Members,
    recipients: Members)

  function PartsOf(q: CreateRequest): Parts
    requires ValidRequest(q)
  {
    Parts(q.heading, q.description, FormatTimestamp(q.start), FormatTimestamp(q.end),
          LocationRecord(q.location), Recipients(q.groupId, q.subgroupId))
  }

  /** The values of the record, key by key in `PayloadKeys` order. */
  function Values(p: Parts): (vs: seq<Json>)
    ensures |vs| == |PayloadKeys|
  {
    [JString(p.heading),
     JString(p.description),
     JString("EVENT"),
     JString(p.start),
     JString(p.end),
     JBool(false),
     JInt(0),
     JNull,
     JObject(p.location),
     JString("INVITEES"),
     JBool(false),
     JString("DISABLED"),
     JBool(false),
     JObject([]),
     JArray([]),
     JObject([("openTasks", JArray([])), ("assignedTasks", JArray([]))]),
     JString("EVENT"),
     JObject(p.recipients)]
  }

  function Record(p: Parts): (m: Members)
    ensures Keys(m) == PayloadKeys
  {
    Object(PayloadKeys, Values(p))
  }

  /** `event_data` with `recipients` attached. */
  function Payload(q: CreateRequest): (r: Members)
    requires ValidRequest(q)
    ensures Keys(r) == PayloadKeys
  {
    Record(PartsOf(q))
  }

  /** No key is listed twice. */
  lemma KeysDistinct()
    ensures forall i, j :: 0 <= i < j < |PayloadKeys| ==> PayloadKeys[i] != PayloadKeys[j]
  {
    var k := PayloadKeys;
    forall i, j | 0 <= i < j < |k|
      ensures k[i] != k[j]
    {
      assert k[i][0] != k[j][0] || |k[i]| != |k[j]| || k[i][1] != k[j][1] || k[i][4] != k[j][4];
    }
  }

  /** No key of the record occurs twice. */
  lemma PayloadKeysUnique(q: CreateRequest)
    requires ValidRequest(q)
    ensures UniqueKeys(Payload(q))
  {
    KeysDistinct();
  }

  /** Each key of a record finds its own value. */
  lemma RecordField(p: Parts, k: nat, key: string)
    requires k < |PayloadKeys| && PayloadKeys[k] == key
    ensures Get(Record(p), key) == Some(Values(p)[k])
  {
    KeysDistinct();
    GetAt(Record(p), k);
  }

  /** The positions of `VariableKeys` in the record. */
  const VariableSlots: set<int> := {0, 1, 3, 4, 8, 17}

  lemma VariableSlotsKeys()
    ensures forall i :: 0 <= i < |PayloadKeys| ==> (PayloadKeys[i] in VariableKeys <==> i in VariableSlots)
  {
    var k := PayloadKeys;
    forall i | 0 <= i < |k|
      ensures k[i] in VariableKeys <==> i in VariableSlots
    {
      if i in VariableSlots {
        assert k[i] in VariableKeys;
      } else {
        assert k[i] !in VariableKeys by {
          KeysDistinct();
        }
      }
    }
  }

  /** Outside the varying positions, every value list is the same. */
  lemma ValuesConstant(p1: Parts, p2: Parts)
    ensures forall i :: 0 <= i < |PayloadKeys| && i !in VariableSlots ==> Values(p1)[i] == Values(p2)[i]
  {
  }

  /** Two requests produce records that differ only under the keys that
      carry the request: every other field is a constant. */
  lemma PayloadConstants(q1: CreateRequest, q2: CreateRequest)
    requires ValidRequest(q1) && ValidRequest(q2)
    ensures forall i :: 0 <= i < |PayloadKeys| && PayloadKeys[i] !in VariableKeys ==> Payload(q1)[i] == Payload(q2)[i]
  {
    VariableSlotsKeys();
    ValuesConstant(PartsOf(q1), PartsOf(q2));
  }

  // ---------------------------------------------------------------------
  // Reading a record back

  function AsString(v: Option<Json>): Option<string> {
    match v
    case Some(JString(s)) => Some(s)
    case _ => None
  }

  function AsObject(v: Option<Json>): Option<Members> {
    match v
    case Some(JObject(m)) => Some(m)
    case _ => None
  }

  function AsTimestamp(v: Option<Json>): Option<DateTime> {
    match AsString(v)
    case Some(s) => ParseTimestamp(s)
    case None => None
  }

  /** The free text from a `location` record: its address, or `None`
      when the address is null. */
  function ReadLocation(m: Members): Option<Option<string>> {
    match Get(m, "address")
    case Some(JNull) => Some(None)
    case Some(JString(s)) => Some(Some(s))
    case _ => None
  }

  /** The group id and the optional subgroup from `recipients`. */
  function ReadRecipients(m: Members): Option<(string, Option<string>)> {
    var group :- AsObject(Get(m, "group"));
    var id :- AsString(Get(group, "id"));
    match Get(group, "subGroups")
    case None => Some((id, None))
    case Some(JArray(items)) =>
      if |items| == 1 && items[0].JString? then Some((id, Some(items[0].s))) else None
    case _ => None
  }

  /** What the platform reads out of a record. */
  function ReadBack(m: Members): Option<CreateRequest> {
    var heading :- AsString(Get(m, "heading"));
    var description :- AsString(Get(m, "description"));
    var start :- AsTimestamp(Get(m, "startTimestamp"));
    var end :- AsTimestamp(Get(m, "endTimestamp"));
    var location :- AsObject(Get(m, "location"));
    var text :- ReadLocation(location);
    var recipients :- AsObject(Get(m, "recipients"));
    var group :- ReadRecipients(recipients);
    Some(CreateRequest(group.0, heading, start, end, description, text, group.1))
  }

  /** The subgroup as the record carries it: an empty subgroup id is the
      same as none. */
  function Normalise(q: CreateRequest): CreateRequest {
    if q.subgroupId == Some("") then q.(subgroupId := None) else q
  }

  /** The request's own fields of a record, as written. */
  lemma TextParts(p: Parts)
    ensures Get(Record(p), "heading") == Some(JString(p.heading))
    ensures Get(Record(p), "description") == Some(JString(p.description))
    ensures Get(Record(p), "startTimestamp") == Some(JString(p.start))
    ensures Get(Record(p), "endTimestamp") == Some(JString(p.end))
  {
    RecordField(p, 0, "heading");
    RecordField(p, 1, "description");
    RecordField(p, 3, "startTimestamp");
    RecordField(p, 4, "endTimestamp");
  }

  lemma ObjectParts(p: Parts)
    ensures Get(Record(p), "location") == Some(JObject(p.location))
    ensures Get(Record(p), "recipients") == Some(JObject(p.recipients))
  {
    RecordField(p, 8, "location");
    RecordField(p, 17, "recipients");
  }

  /** `heading` and `description` are copied verbatim; `startTimestamp`
      and `endTimestamp` are the wire format of the start and the end. */
  lemma RequestFields(q: CreateRequest)
    requires ValidRequest(q)
    ensures Get(Payload(q), "heading") == Some(JString(q.heading))
    ensures Get(Payload(q), "description") == Some(JString(q.description))
    ensures Get(Payload(q), "startTimestamp") == Some(JString(FormatTimestamp(q.start)))
    ensures Get(Payload(q), "endTimestamp") == Some(JString(FormatTimestamp(q.end)))
    ensures ParseTimestamp(FormatTimestamp(q.start)) == Some(q.start)
    ensures ParseTimestamp(FormatTimestamp(q.end)) == Some(q.end)
  {
    TextParts(PartsOf(q));
    ParseFormatTimestamp(q.start);
    ParseFormatTimestamp(q.end);
  }

  /** A wire timestamp reads back as the datetime it was written from. */
  lemma StampReadsBack(v: Option<Json>, t: DateTime)
    requires ValidDateTime(t) && v == Some(JString(FormatTimestamp(t)))
    ensures AsTimestamp(v) == Some(t)
  {
    ParseFormatTimestamp(t);
  }

  /** `location` and `recipients` hold the records built from the
      request. */
  lemma ObjectFields(q: CreateRequest)
    requires ValidRequest(q)
    ensures Get(Payload(q), "location") == Some(JObject(LocationRecord(q.location)))
    ensures Get(Payload(q), "recipients") == Some(JObject(Recipients(q.groupId, q.subgroupId)))
  {
    ObjectParts(PartsOf(q));
  }

  lemma ReadLocationRecord(location: Option<string>)
    ensures ReadLocation(LocationRecord(location)) == Some(location)
  {
    var m := LocationRecord(location);
    assert Get(m, "address") == Get(m[1..], "address") == Get(m[2..], "address");
  }

  lemma ReadRecipientsRecord(groupId: string, subgroupId: Option<string>)
    ensures ReadRecipients(Recipients(groupId, subgroupId))
            == Some((groupId, if subgroupId == Some("") then None else subgroupId))
  {
    var group := AsObject(Get(Recipients(groupId, subgroupId), "group")).value;
    assert group[0] == ("id", JString(groupId));
    if subgroupId.Some? && subgroupId.value != "" {
      assert group[1..] == [("subGroups", JArray([JString(subgroupId.value)]))];
      assert Get(group, "subGroups") == Get(group[1..], "subGroups");
    } else {
      assert group[1..] == [];
      assert Get(group, "subGroups") == Get(group[1..], "subGroups") == None;
    }
  }

  /** The record loses nothing but an empty subgroup id: heading and
      description verbatim, start and end to the second, the free-text
      location, the group and a non-empty subgroup all read back. */
  lemma ReadBackPayload(q: CreateRequest)
    requires ValidRequest(q)
    ensures ReadBack(Payload(q)) == Some(Normalise(q))
  {
    var p := PartsOf(q);
    StampReadsBack(Some(JString(p.start)), q.start);
    StampReadsBack(Some(JString(p.end)), q.end);
    ReadBackRecord(p, q);
  }

  /** `ReadBack` of the record built from parts that hold the request. */
  lemma ReadBackRecord(p: Parts, q: CreateRequest)
    requires p.heading == q.heading && p.description == q.description
    requires AsTimestamp(Some(JString(p.start))) == Some(q.start)
    requires AsTimestamp(Some(JString(p.end))) == Some(q.end)
    requires p.location == LocationRecord(q.location)
    requires p.recipients == Recipients(q.groupId, q.subgroupId)
    ensures ReadBack(Record(p)) == Some(Normalise(q))
  {
    TextParts(p);
    ObjectParts(p);
    ReadBackFrom(Record(p), q);
  }

  /** `ReadBack` of any record whose fields hold the request. */
  lemma ReadBackFrom(m: Members, q: CreateRequest)
    requires AsString(Get(m, "heading")) == Some(q.heading)
    requires AsString(Get(m, "description")) == Some(q.description)
    requires AsTimestamp(Get(m, "startTimestamp")) == Some(q.start)
    requires AsTimestamp(Get(m, "endTimestamp")) == Some(q.end)
    requires AsObject(Get(m, "location")) == Some(LocationRecord(q.location))
    requires AsObject(Get(m, "recipients")) == Some(Recipients(q.groupId, q.subgroupId))
    ensures ReadBack(m) == Some(Normalise(q))
  {
    ReadLocationRecord(q.location);
    ReadRecipientsRecord(q.groupId, q.subgroupId);
  }

  /** Distinct requests (up to an empty subgroup id) produce distinct
      records. */
  lemma PayloadInjective(q1: CreateRequest, q2: CreateRequest)
    requires ValidRequest(q1) && ValidRequest(q2)
    requires Payload(q1) == Payload(q2)
    ensures Normalise(q1) == Normalise(q2)
  {
    ReadBackPayload(q1);
    ReadBackPayload(q2);
  }

  /** The kind of record: an `EVENT`, visible to invitees. */
  lemma KindParts(p: Parts)
    ensures Get(Record(p), "spondType") == Some(JString("EVENT"))
    ensures Get(Record(p), "type") == Some(JString("EVENT"))
    ensures Get(Record(p), "visibility") == Some(JString("INVITEES"))
  {
    RecordField(p, 2, "spondType");
    RecordField(p, 16, "type");
    RecordField(p, 9, "visibility");
  }

  /** Answers: no limit, no automatic accept, no RSVP date. */
  lemma AnswerParts(p: Parts)
    ensures Get(Record(p), "maxAccepted") == Some(JInt(0))
    ensures Get(Record(p), "autoAccept") == Some(JBool(false))
    ensures Get(Record(p), "rsvpDate") == Some(JNull)
  {
    RecordField(p, 6, "maxAccepted");
    RecordField(p, 12, "autoAccept");
    RecordField(p, 7, "rsvpDate");
  }

  /** Comments on, participants shown, no automatic reminder. */
  lemma SettingParts(p: Parts)
    ensures Get(Record(p), "commentsDisabled") == Some(JBool(false))
    ensures Get(Record(p), "participantsHidden") == Some(JBool(false))
    ensures Get(Record(p), "autoReminderType") == Some(JString("DISABLED"))
  {
    RecordField(p, 5, "commentsDisabled");
    RecordField(p, 10, "participantsHidden");
    RecordField(p, 11, "autoReminderType");
  }

  /** The fixed fields of every request's record: an `EVENT` visible to
      invitees, no answer limit, no automatic accept or reminder,
      comments on, participants shown, no RSVP date. */
  lemma FixedFields(q: CreateRequest)
    requires ValidRequest(q)
    ensures var m := Payload(q);
            && Get(m, "spondType") == Some(JString("EVENT"))
            && Get(m, "type") == Some(JString("EVENT"))
            && Get(m, "visibility") == Some(JString("INVITEES"))
            && Get(m, "maxAccepted") == Some(JInt(0))
            && Get(m, "autoAccept") == Some(JBool(false))
            && Get(m, "commentsDisabled") == Some(JBool(false))
            && Get(m, "participantsHidden") == Some(JBool(false))
            && Get(m, "autoReminderType") == Some(JString("DISABLED"))
            && Get(m, "rsvpDate") == Some(JNull)
  {
    KindParts(PartsOf(q));
    AnswerParts(PartsOf(q));
    SettingParts(PartsOf(q));
  }

  /** The record `LocationRecord` builds, key by key. */
  lemma LocationRecordShape(location: Option<string>)
    ensures var loc := LocationRecord(location);
            && Keys(loc) == ["id", "feature", "address", "latitude", "longitude"]
            && Get(loc, "id") == Some(JNull)
            && Get(loc, "feature") == Some(OptString(location))
            && Get(loc, "address") == Some(OptString(location))
            && Get(loc, "latitude") == Some(JNull)
            && Get(loc, "longitude") == Some(JNull)
  {
    var loc := LocationRecord(location);
    assert Get(loc, "feature") == Get(loc[1..], "feature");
    assert Get(loc, "address") == Get(loc[1..], "address") == Get(loc[2..], "address");
    assert Get(loc, "latitude") == Get(loc[1..], "latitude") == Get(loc[2..], "latitude") == Get(loc[3..], "latitude");
    assert Get(loc, "longitude") == Get(loc[1..], "longitude") == Get(loc[2..], "longitude")
        == Get(loc[3..], "longitude") == Get(loc[4..], "longitude");
  }

  /** The venue record carries the free text as both `feature` and
      `address`, and a null id and null coordinates. */
  lemma LocationShape(q: CreateRequest)
    requires ValidRequest(q)
    ensures var loc := LocationRecord(q.location);
            && AsObject(Get(Payload(q), "location")) == Some(loc)
            && Keys(loc) == ["id", "feature", "address", "latitude", "longitude"]
            && Get(loc, "id") == Some(JNull)
            && Get(loc, "feature") == Get(loc, "address") == Some(OptString(q.location))
            && Get(loc, "latitude") == Get(loc, "longitude") == Some(JNull)
  {
    ObjectFields(q);
    LocationRecordShape(q.location);
  }

  /** The group record holds the id and, exactly when the subgroup id is
      non-empty, `subGroups` with that one id; nothing else. */
  lemma RecipientsShape(q: CreateRequest)
    requires ValidRequest(q)
    ensures var group := AsObject(Get(Recipients(q.groupId, q.subgroupId), "group")).value;
            && Keys(group) == (if q.subgroupId.Some? && q.subgroupId.value != "" then ["id", "subGroups"] else ["id"])
            && Get(group, "id") == Some(JString(q.groupId))
            && (Get(group, "subGroups").Some? <==> q.subgroupId.Some? && q.subgroupId.value != "")
  {
  }

  // ---------------------------------------------------------------------
  // Binding the keyword arguments of a call

  /** The argument names that occur in calls to `create_event`, each
      standing for the Python keyword in snake case (`GroupId` for
      `group_id`). */
  datatype Keyword =
    | Client | GroupId | Heading | Start | End | Description | Location
    | SubgroupId | InviteAll | LocationData | MeetupPrior | OwnerIds

  /** The parameters of `create_event`; it takes no `**kwargs`. */
  const CreateEventParameters: set<Keyword> :=
    {Client, GroupId, Heading, Start, End, Description, Location, SubgroupId, InviteAll}

  /** The keywords a call carrying exactly the fields of a
      `CreateRequest` passes. */
  const RequestKeywords: seq<Keyword> :=
    [GroupId, Heading, Start, End, Description, Location, SubgroupId]

  /** Every keyword names a parameter. */
  predicate AllBind(keywords: seq<Keyword>) {
    forall k :: 0 <= k < |keywords| ==> keywords[k] in CreateEventParameters
  }

  /** `keywords[i]` is the first keyword that names no parameter. */
  predicate FirstUnbound(keywords: seq<Keyword>, i: int) {
    && 0 <= i < |keywords|
    && keywords[i] !in CreateEventParameters
    && forall j :: 0 <= j < i ==> keywords[j] in CreateEventParameters
  }

  /** Python's binding of a call's keyword arguments, in the order the
      call gives them: the first keyword that names no parameter is the
      one the `TypeError` reports, and `None` means every keyword binds. */
  function UnexpectedKeyword(keywords: seq<Keyword>): (r: Option<Keyword>)
    ensures r.None? <==> AllBind(keywords)
    ensures r.Some? ==> exists i :: FirstUnbound(keywords, i) && keywords[i] == r.value
  {
    if |keywords| == 0 then None
    else if keywords[0] !in CreateEventParameters then
      assert FirstUnbound(keywords, 0);
      Some(keywords[0])
    else
      ShiftBinding(keywords);
      UnexpectedKeyword(keywords[1..])
  }

  /** A keyword that binds, put in front, changes neither whether the
      rest binds nor which keyword fails first. */
  lemma ShiftBinding(keywords: seq<Keyword>)
    requires |keywords| > 0 && keywords[0] in CreateEventParameters
    ensures AllBind(keywords) <==> AllBind(keywords[1..])
    ensures forall i :: FirstUnbound(keywords[1..], i) ==> FirstUnbound(keywords, i + 1) && keywords[i + 1] == keywords[1..][i]
  {
    var tail := keywords[1..];
    assert forall k :: 0 <= k < |tail| ==> tail[k] == keywords[k + 1];
    assert AllBind(tail) ==> AllBind(keywords) by {
      if AllBind(tail) {
        forall k | 0 <= k < |keywords| ensures keywords[k] in CreateEventParameters {
          if k > 0 { assert keywords[k] == tail[k - 1]; }
        }
      }
    }
    forall i | FirstUnbound(tail, i) ensures FirstUnbound(keywords, i + 1) {
      forall j | 0 <= j < i + 1 ensures keywords[j] in CreateEventParameters {
        if j > 0 { assert keywords[j] == tail[j - 1]; }
      }
    }
  }

  /** The keywords of a call with those in `drop` taken out, in order. */
  function Without(keywords: seq<Keyword>, drop: set<Keyword>): (r: seq<Keyword>)
    ensures forall k :: 0 <= k < |r| ==> r[k] in keywords && r[k] !in drop
    ensures forall k :: 0 <= k < |keywords| && keywords[k] !in drop ==> keywords[k] in r
  {
    if |keywords| == 0 then []
    else
      var rest := Without(keywords[1..], drop);
      assert forall k :: 1 <= k < |keywords| ==> keywords[k] == keywords[1..][k - 1];
      if keywords[0] in drop then rest else [keywords[0]] + rest
  }

  /** A keyword that is the first not to bind is the one reported. */
  lemma UnexpectedAt(keywords: seq<Keyword>, i: int)
    requires FirstUnbound(keywords, i)
    ensures UnexpectedKeyword(keywords) == Some(keywords[i])
  {
    var r := UnexpectedKeyword(keywords);
    assert !AllBind(keywords);
    var j :| FirstUnbound(keywords, j) && keywords[j] == r.value;
    assert j == i;
  }

  /** Dropping from a call only keywords that name no parameter, and all
      of them, leaves a call that binds and keeps every argument that
      did. */
  lemma DropUnbound(keywords: seq<Keyword>, drop: set<Keyword>)
    requires drop !! CreateEventParameters
    requires forall k :: 0 <= k < |keywords| ==> keywords[k] in drop || keywords[k] in CreateEventParameters
    ensures UnexpectedKeyword(Without(keywords, drop)) == None
    ensures forall k :: 0 <= k < |keywords| && keywords[k] in CreateEventParameters ==> keywords[k] in Without(keywords, drop)
  {
    var kept := Without(keywords, drop);
    assert AllBind(kept) by {
      forall k | 0 <= k < |kept| ensures kept[k] in CreateEventParameters {
        var j :| 0 <= j < |keywords| && keywords[j] == kept[k];
      }
    }
  }

  /** A call passing just the request's fields binds. */
  lemma RequestKeywordsBind()
    ensures UnexpectedKeyword(RequestKeywords) == None
  {
    assert forall k :: 0 <= k < |RequestKeywords| ==> RequestKeywords[k] in CreateEventParameters;
  }
}
