// Text cursors of the paginated log queries
// (event_query_service_support.py, raw_log_service.py, validation_query_cursors.py).
module Cursors {

  import opened Wrappers
  import opened PyText

  // The timestamp text form is a parameter: serialize_timestamp and parse_timestamp.
  datatype Clock = Clock(serialize: int -> string, parse: string -> Option<int>)

  // What the code relies on: parsing undoes printing, and a printed timestamp
  // is trimmed, not empty and free of the separator.
  ghost predicate Faithful(clock: Clock)
  {
    forall t ::
      var text := clock.serialize(t);
      clock.parse(text) == Some(t) && Trimmed(text) && text != "" && '|' !in text
  }

  type CursorError = string

  const EVENT_CURSOR_INVALID: CursorError := "event cursor is invalid"
  const RAW_LOG_CURSOR_INVALID: CursorError := "raw log cursor is invalid"
  const TIMESTAMP_INVALID: CursorError := "cursor timestamp must be an ISO-8601 timestamp"

  function CursorText(clock: Clock, time: int, id: string): string
  {
    clock.serialize(time) + "|" + id
  }

  // optional_text(value): stripped text, or None when nothing is left.
  function OptionalText(s: string): Option<string>
  {
    if Strip(s) == "" then None else Some(Strip(s))
  }

  function ParseEventCursor(clock: Clock, cursor: Option<string>): Result<(Option<int>, Option<string>), CursorError>
  {
    match cursor
    case None => Ok((None, None))
    case Some(text) =>
      match Find(text, "|")
      case None => Err(EVENT_CURSOR_INVALID)
      case Some(i) =>
        var eventId := Strip(text[i + 1..]);
        if eventId == "" then Err(EVENT_CURSOR_INVALID)
        else
          match clock.parse(text[..i])
          case None => Err(TIMESTAMP_INVALID)
          case Some(t) => Ok((Some(t), Some(eventId)))
  }

  function ParseRawLogCursor(clock: Clock, cursor: Option<string>): Result<(Option<int>, Option<int>), CursorError>
  {
    match cursor
    case None => Ok((None, None))
    case Some(text) =>
      match Find(text, "|")
      case None => Err(RAW_LOG_CURSOR_INVALID)
      case Some(i) =>
        match ParseInt(text[i + 1..])
        case None => Err(RAW_LOG_CURSOR_INVALID)
        case Some(logId) =>
          match clock.parse(text[..i])
          case None => Err(TIMESTAMP_INVALID)
          case Some(t) => Ok((Some(t), Some(logId)))
  }

  // The first separator is the one the cursor was built with, whatever the id contains.
  lemma SeparatorFound(clock: Clock, time: int, id: string)
    requires Faithful(clock)
    ensures Find(CursorText(clock, time, id), "|") == Some(|clock.serialize(time)|)
  {
    var head := clock.serialize(time);
    assert '|' !in head;
    SplitAtSeparator(head, id);
  }

  lemma CursorTextParts(clock: Clock, time: int, id: string)
    requires Faithful(clock) && id != "" && Trimmed(id)
    ensures var head, text := clock.serialize(time), CursorText(clock, time, id);
            && OptionalText(text) == Some(text)
            && Find(text, "|") == Some(|head|)
            && text[..|head|] == head && text[|head| + 1..] == id
            && clock.parse(head) == Some(time)
  {
    var head, text := clock.serialize(time), CursorText(clock, time, id);
    assert clock.parse(head) == Some(time);
    assert text[|text| - 1] == id[|id| - 1] && text[0] == head[0];
    assert Trimmed(text);
    SeparatorFound(clock, time, id);
  }

  // The event cursor survives the trip exactly when the event id is non-empty
  // and has no outer blanks. It may contain the separator.
  lemma EventCursorRoundTrip(clock: Clock, time: int, id: string)
    requires Faithful(clock)
    ensures ParseEventCursor(clock, OptionalText(CursorText(clock, time, id))) == Ok((Some(time), Some(id)))
            <==> id != "" && Trimmed(id)
  {
    if id != "" && Trimmed(id) {
      CursorTextParts(clock, time, id);
    }
  }

  // A cursor without a separator is refused; one with it is split at the first,
  // and both parts must make sense.
  lemma EventCursorMeaning(clock: Clock, head: string, tail: string)
    requires '|' !in head
    ensures ParseEventCursor(clock, Some(head)).Err?
    ensures var r := ParseEventCursor(clock, Some(head + "|" + tail));
            && (r.Ok? <==> Strip(tail) != "" && clock.parse(head).Some?)
            && (r.Ok? ==> r.value == (clock.parse(head), Some(Strip(tail))))
  {
    SplitAtSeparator(head, tail);
  }

  lemma RawLogCursorMeaning(clock: Clock, head: string, tail: string)
    requires '|' !in head
    ensures ParseRawLogCursor(clock, Some(head)).Err?
    ensures var r := ParseRawLogCursor(clock, Some(head + "|" + tail));
            && (r.Ok? <==> ParseInt(tail).Some? && clock.parse(head).Some?)
            && (r.Ok? ==> r.value == (clock.parse(head), ParseInt(tail)))
  {
    SplitAtSeparator(head, tail);
  }

  lemma SplitAtSeparator(head: string, tail: string)
    requires '|' !in head
    ensures Find(head, "|") == None
    ensures var text := head + "|" + tail;
            Find(text, "|") == Some(|head|) && text[..|head|] == head && text[|head| + 1..] == tail
  {
    var text := head + "|" + tail;
    assert text[|head|..|head| + 1] == "|";
    forall j: nat | j < |head|
      ensures !OccursAt(text, "|", j)
    {
      NoSeparatorAt(head, "|" + tail, j);
      assert head + ("|" + tail) == text;
    }
    FindIs(text, "|", |head|);
    forall j: nat | j < |head|
      ensures !OccursAt(head, "|", j)
    {
      NoSeparatorAt(head, "", j);
      assert head + "" == head;
    }
  }

  lemma NoSeparatorAt(head: string, rest: string, j: nat)
    requires '|' !in head && j < |head|
    ensures !OccursAt(head + rest, "|", j)
  {
    assert (head + rest)[j..j + 1] == [head[j]];
    assert head[j] in head;
  }

  lemma RawLogCursorText(clock: Clock, time: int, id: string, logId: int)
    requires Faithful(clock) && id != "" && Trimmed(id) && ParseInt(id) == Some(logId)
    ensures ParseRawLogCursor(clock, OptionalText(CursorText(clock, time, id))) == Ok((Some(time), Some(logId)))
  {
    CursorTextParts(clock, time, id);
  }

  lemma RawLogCursorRoundTrip(clock: Clock, time: int, logId: int)
    requires Faithful(clock) && logId >= 0
    ensures ParseRawLogCursor(clock, OptionalText(CursorText(clock, time, PrintNat(logId)))) == Ok((Some(time), Some(logId)))
  {
    var id := PrintNat(logId);
    PrintedIsTrimmed(logId);
    IntRoundTrip(logId);
    assert ParseInt(id) == Some(logId);
    assert id != "";
    assert Trimmed(id);
    RawLogCursorText(clock, time, id, logId);
  }

  // Printing microseconds in decimal is one text form that meets the assumption.
  function DecimalClock(): Clock
  {
    Clock(
      t => if t < 0 then "-" + PrintNat(-t) else PrintNat(t),
      s => ParseInt(s))
  }

  lemma DecimalClockIsFaithful()
    ensures Faithful(DecimalClock())
  {
    var clock := DecimalClock();
    forall t
      ensures var text := clock.serialize(t);
              clock.parse(text) == Some(t) && Trimmed(text) && text != "" && '|' !in text
    {
      if t < 0 {
        NegativeRoundTrip(-t);
      } else {
        IntRoundTrip(t);
        PrintedIsTrimmed(t);
      }
    }
  }
}
