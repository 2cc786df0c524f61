/** The plain-text listing `get_event_summary` prints for a list of
    upcoming events: one block of lines per event, the blocks joined by
    newlines. */
module Summary {
  import opened Wrappers
  import opened Text
  import opened Numerals
  import opened Civil
  import opened Timestamp

  /** The fields of a listed event the summary reads; `None` is a key the
      event does not have. `address` is the venue's address, `None` also
      when the event has no venue. */
  datatype ListedEvent = ListedEvent(
    id: Option<string>,
    startTimestamp: Option<string>,
    heading: Option<string>,
    address: Option<string>,
    description: Option<string>)

  /** The `KeyError` of `e["id"]` for the event at `index`. */
  datatype SummaryError = MissingId(index: nat)

  /** The start is shown to the minute: the first 16 characters of the
      timestamp. */
  const StartWidth: nat := 16

  /** At most this many characters of the description are shown. */
  const DescriptionWidth: nat := 100

  /** The start column: the timestamp cut to the minute with its `T`
      turned into a space, or `?` when the event has none. */
  function StartField(ts: Option<string>): (r: string)
    ensures ts.None? ==> r == "?"
    ensures ts.Some? ==> |r| == (if |ts.value| <= StartWidth then |ts.value| else StartWidth)
    ensures ts.Some? ==> forall k :: 0 <= k < |r| ==> r[k] == (if ts.value[k] == 'T' then ' ' else ts.value[k])
  {
    ReplaceChar(Take(ts.GetOr("?"), StartWidth), 'T', ' ')
  }

  /** The description column: the first 100 characters of the
      description, empty when it is missing or empty. */
  function DescriptionField(d: Option<string>): (r: string)
    ensures |r| <= DescriptionWidth
    ensures d.None? ==> r == ""
    ensures d.Some? ==> r <= d.value
    ensures d.Some? && |d.value| <= DescriptionWidth ==> r == d.value
    ensures d.Some? && |d.value| > DescriptionWidth ==> |r| == DescriptionWidth
  {
    Take(d.GetOr(""), DescriptionWidth)
  }

  /** The lines of one event with id `id`. */
  function Block(e: ListedEvent, id: string): (lines: seq<string>)
    ensures 3 <= |lines| <= 5
    ensures lines[0] == "  " + StartField(e.startTimestamp) + "  " + e.heading.GetOr("(no title)")
    ensures lines[1] == "  ID: " + id
    ensures lines[|lines| - 1] == ""
    ensures |lines| == 3 + (if e.address.GetOr("") != "" then 1 else 0)
                         + (if DescriptionField(e.description) != "" then 1 else 0)
    ensures e.address.GetOr("") != "" ==> lines[2] == "  Location: " + e.address.value
    ensures DescriptionField(e.description) != "" ==>
              lines[|lines| - 2] == "  Description: " + DescriptionField(e.description) + "..."
  {
    var address := e.address.GetOr("");
    var desc := DescriptionField(e.description);
    ["  " + StartField(e.startTimestamp) + "  " + e.heading.GetOr("(no title)"),
     "  ID: " + id]
    + (if address != "" then ["  Location: " + address] else [])
    + (if desc != "" then ["  Description: " + desc + "..."] else [])
    + [""]
  }

  /** The lines of all events in order, or the `KeyError` of the first
      event without an id. */
  function Lines(events: seq<ListedEvent>): (r: Result<seq<string>, SummaryError>)
    ensures r.Err? ==> r.error.index < |events|
    ensures r.Ok? ==> 3 * |events| <= |r.value| <= 5 * |events|
  {
    if |events| == 0 then Ok([])
    else if events[0].id.None? then Err(MissingId(0))
    else
      match Lines(events[1..])
      case Err(MissingId(i)) => Err(MissingId(i + 1))
      case Ok(rest) => Ok(Block(events[0], events[0].id.value) + rest)
  }

  /** The listing fails exactly when some event has no id, and it names
      the first such event. */
  lemma {:induction false} LinesFail(events: seq<ListedEvent>)
    ensures Lines(events).Err? <==> exists i :: 0 <= i < |events| && events[i].id.None?
    ensures Lines(events).Err? ==> && events[Lines(events).error.index].id.None?
                                   && forall j :: 0 <= j < Lines(events).error.index ==> events[j].id.Some?
  {
    if |events| > 0 && events[0].id.Some? {
      var tail := events[1..];
      LinesFail(tail);
      assert forall i :: 0 <= i < |tail| ==> tail[i] == events[i + 1];
      if Lines(tail).Err? {
        var i := Lines(tail).error.index;
        assert events[i + 1] == tail[i];
      } else {
        assert forall i :: 1 <= i < |events| ==> events[i] == tail[i - 1];
      }
    }
  }

  /** `"\n".join(lines)`. */
  function EventSummary(events: seq<ListedEvent>): (r: Result<string, SummaryError>)
    ensures r.Err? <==> Lines(events).Err?
    ensures r.Err? ==> r == Err(Lines(events).error)
  {
    var lines :- Lines(events);
    Ok(Join(lines, '\n'))
  }

  /** An event with an id contributes its block ahead of the rest. */
  lemma {:induction false} LinesCons(e: ListedEvent, rest: seq<ListedEvent>)
    requires e.id.Some? && Lines(rest).Ok?
    ensures Lines([e] + rest) == Ok(Block(e, e.id.value) + Lines(rest).value)
  {
    assert ([e] + rest)[1..] == rest;
  }

  /** Concatenation is associative. */
  lemma ConcatAssoc<T>(x: seq<T>, p: seq<T>, q: seq<T>)
    ensures x + (p + q) == (x + p) + q
  {
  }

  /** Listing two runs of events one after the other gives the lines of
      the first run followed by those of the second. */
  lemma {:induction false} LinesAppend(a: seq<ListedEvent>, b: seq<ListedEvent>)
    requires Lines(a).Ok? && Lines(b).Ok?
    ensures Lines(a + b) == Ok(Lines(a).value + Lines(b).value)
  {
    if |a| == 0 {
      assert a + b == b;
      assert Lines(a).value + Lines(b).value == Lines(b).value;
    } else {
      LinesAppend(a[1..], b);
      LinesAppendStep(a, b);
    }
  }

  /** The inductive step of `LinesAppend`. */
  lemma {:induction false} LinesAppendStep(a: seq<ListedEvent>, b: seq<ListedEvent>)
    requires |a| > 0 && Lines(a).Ok? && Lines(b).Ok?
    requires Lines(a[1..] + b) == Ok(Lines(a[1..]).value + Lines(b).value)
    ensures Lines(a + b) == Ok(Lines(a).value + Lines(b).value)
  {
    var h := a[0];
    assert a == [h] + a[1..];
    ConcatAssoc([h], a[1..], b);
    LinesCons(h, a[1..]);
    LinesCons(h, a[1..] + b);
    ConcatAssoc(Block(h, h.id.value), Lines(a[1..]).value, Lines(b).value);
  }

  /** No field of the event holds a line break. */
  predicate SingleLine(e: ListedEvent) {
    && (e.id.Some? ==> '\n' !in e.id.value)
    && (e.startTimestamp.Some? ==> '\n' !in e.startTimestamp.value)
    && (e.heading.Some? ==> '\n' !in e.heading.value)
    && (e.address.Some? ==> '\n' !in e.address.value)
    && (e.description.Some? ==> '\n' !in e.description.value)
  }

  /** The block of a single-line event holds no line break. */
  lemma BlockSingle(e: ListedEvent, id: string)
    requires SingleLine(e) && '\n' !in id
    ensures forall k :: 0 <= k < |Block(e, id)| ==> '\n' !in Block(e, id)[k]
  {
    var start := StartField(e.startTimestamp);
    assert '\n' !in start by {
      if e.startTimestamp.Some? {
        forall k | 0 <= k < |start| ensures start[k] != '\n' {
          assert e.startTimestamp.value[k] in e.startTimestamp.value;
        }
      }
    }
    var desc := DescriptionField(e.description);
    assert '\n' !in desc by {
      if e.description.Some? {
        forall k | 0 <= k < |desc| ensures desc[k] != '\n' {
          assert desc[k] in e.description.value;
        }
      }
    }
  }

  /** The lines of single-line events hold no line break. */
  lemma {:induction false} LinesSingle(events: seq<ListedEvent>)
    requires Lines(events).Ok?
    requires forall i :: 0 <= i < |events| ==> SingleLine(events[i])
    ensures forall k :: 0 <= k < |Lines(events).value| ==> '\n' !in Lines(events).value[k]
  {
    if |events| > 0 {
      var e := events[0];
      var tail := events[1..];
      assert forall i :: 0 <= i < |tail| ==> tail[i] == events[i + 1];
      LinesSingle(tail);
      BlockSingle(e, e.id.value);
      assert Lines(events).value == Block(e, e.id.value) + Lines(tail).value;
    }
  }

  /** For events without line breaks in their fields, splitting the
      summary at newlines gives back exactly the lines it was built from. */
  lemma SummarySplit(events: seq<ListedEvent>)
    requires |events| > 0 && Lines(events).Ok?
    requires forall i :: 0 <= i < |events| ==> SingleLine(events[i])
    ensures Split(EventSummary(events).value, '\n') == Lines(events).value
  {
    LinesSingle(events);
    SplitJoin(Lines(events).value, '\n');
  }

  /** A timestamp in the wire format shows as its date, a space and the
      hour and minute. */
  lemma StartOfWireTimestamp(t: DateTime)
    requires ValidDateTime(t)
    ensures StartField(Some(FormatTimestamp(t))) == FormatDate(t.date) + " " + Pad(t.hour, 2) + ":" + Pad(t.minute, 2)
  {
    var date := FormatDate(t.date);
    var hm := Pad(t.hour, 2) + ":" + Pad(t.minute, 2);
    WireMinute(t);
    DateHasNoT(t.date);
    MinuteHasNoT(t.hour, t.minute);
    ReplaceAround(date, hm);
  }

  /** The first sixteen characters of a wire timestamp are the date,
      the `T` and the hour and minute. */
  lemma WireMinute(t: DateTime)
    requires ValidDateTime(t)
    ensures Take(FormatTimestamp(t), StartWidth) == FormatDate(t.date) + "T" + Pad(t.hour, 2) + ":" + Pad(t.minute, 2)
  {
    var ts := FormatTimestamp(t);
    var clock := FormatClock(t.hour, t.minute, t.second);
    var hm := Pad(t.hour, 2) + ":" + Pad(t.minute, 2);
    assert hm == clock[..5] by {
      PadWidth(t.hour, 2);
      Pieces(Pad(t.hour, 2), ':', Pad(t.minute, 2));
    }
    assert ts[11..16] == clock[..5];
    Pieces(FormatDate(t.date), 'T', hm);
  }

  /** Hour and minute written as `HH:MM` hold no `T`. */
  lemma MinuteHasNoT(hour: nat, minute: nat)
    requires hour < 100 && minute < 100
    ensures 'T' !in Pad(hour, 2) + ":" + Pad(minute, 2)
  {
    PadWidth(hour, 2);
    PadWidth(minute, 2);
    Pieces(Pad(hour, 2), ':', Pad(minute, 2));
    DigitsHaveNoT(Pad(hour, 2));
    DigitsHaveNoT(Pad(minute, 2));
  }

  /** Digits are not the letter `T`. */
  lemma DigitsHaveNoT(s: string)
    requires AllDigits(s)
    ensures 'T' !in s
  {
    forall k | 0 <= k < |s| ensures s[k] != 'T' {
      assert IsDigit(s[k]);
    }
  }

  /** A written date holds digits and dashes only. */
  lemma DateHasNoT(d: Date)
    requires InRange(d)
    ensures 'T' !in FormatDate(d)
  {
    var s := FormatDate(d);
    DigitsHaveNoT(s[..4]);
    DigitsHaveNoT(s[5..7]);
    DigitsHaveNoT(s[8..]);
    forall k | 0 <= k < |s| ensures s[k] != 'T' {
      if k < 4 { assert s[k] in s[..4]; }
      else if 5 <= k < 7 { assert s[k] in s[5..7]; }
      else if 8 <= k { assert s[k] == s[8..][k - 8]; }
    }
  }

  /** Turning `T` into a space in text with a single `T` replaces just it. */
  lemma ReplaceAround(a: string, b: string)
    requires 'T' !in a && 'T' !in b
    ensures ReplaceChar(a + "T" + b, 'T', ' ') == a + " " + b
  {
    var s := a + "T" + b;
    var r := ReplaceChar(s, 'T', ' ');
    var want := a + " " + b;
    forall k | 0 <= k < |s| ensures r[k] == want[k] {
      if k < |a| {
        assert s[k] == a[k] && a[k] in a;
      } else if k > |a| {
        assert s[k] == b[k - |a| - 1] && b[k - |a| - 1] in b;
      }
    }
  }

  /** One event with an id, start, heading, no venue and a long
      description: four lines, the description cut to 100 characters. */
  lemma LongDescriptionShown(e: ListedEvent)
    requires e.id.Some? && e.address.None?
    requires e.description.Some? && |e.description.value| > DescriptionWidth
    ensures Lines([e]).Ok?
    ensures |Lines([e]).value| == 4
    ensures Lines([e]).value[2] == "  Description: " + e.description.value[..DescriptionWidth] + "..."
  {
    assert [e][1..] == [];
  }
}
