// Server-sent events: the relay's writer, the block parser and the buffered
// stream reader (telegram_events: relay_compat_http_support.py, _sse_parser.py,
// _sse_stream.py). Chunks are text: the relay writes ASCII only, so decoding a
// chunk of bytes on its own loses nothing.
module SseStream {

  import opened Wrappers
  import opened PyText

  // What json.loads, the dict check and the event constructor make of the
  // joined data lines: nothing to fire, an event, or a KeyError.
  datatype Decoded<+E> = NoEvent | Event(event: E) | MissingField

  // What a reader has done: the events fired in order, the text kept for later,
  // and whether an exception ended the stream (the kept text is then lost).
  datatype Outcome<+E> = Outcome(fired: seq<E>, rest: string, failed: bool)

  const DATA_PREFIX := "data:"

  function DataOf(lines: seq<string>): seq<string>
  {
    if lines == [] then []
    else (if DATA_PREFIX <= lines[0] then [Strip(lines[0][|DATA_PREFIX|..])] else []) + DataOf(lines[1..])
  }

  function ExtractDataLines(block: string): seq<string>
  {
    DataOf(Split(Strip(block), "\n"))
  }

  function ParseBlock<E>(decode: string -> Decoded<E>, block: string): Decoded<E>
  {
    var lines := ExtractDataLines(block);
    if lines == [] then NoEvent else decode(Join(lines, "\n"))
  }

  // One pass over a whole text: a block ends at the first blank line.
  function Consume<E>(decode: string -> Decoded<E>, text: string): Outcome<E>
    decreases |text|
  {
    match Find(text, "\n\n")
    case None => Outcome([], text, false)
    case Some(i) =>
      match ParseBlock(decode, text[..i])
      case NoEvent => Consume(decode, text[i + 2..])
      case Event(e) =>
        var later := Consume(decode, text[i + 2..]);
        later.(fired := [e] + later.fired)
      case MissingField => Outcome([], "", true)
  }

  // Text that arrives later is read exactly as if it had been there already.
  function Resume<E>(decode: string -> Decoded<E>, sofar: Outcome<E>, more: string): Outcome<E>
  {
    if sofar.failed then sofar
    else
      var later := Consume(decode, sofar.rest + more);
      later.(fired := sofar.fired + later.fired)
  }

  // A block boundary found early stays the first one when more text follows.
  lemma FindStable(a: string, b: string, pat: string)
    requires Find(a, pat).Some?
    ensures Find(a + b, pat) == Find(a, pat)
  {
    var i := Find(a, pat).value;
    assert (a + b)[i..i + |pat|] == a[i..i + |pat|];
    forall j | 0 <= j < i
      ensures !OccursAt(a + b, pat, j)
    {
      assert (a + b)[j..j + |pat|] == a[j..j + |pat|];
      assert !OccursAt(a, pat, j);
    }
    FindIs(a + b, pat, i);
  }

  lemma Associative<T>(a: seq<T>, b: seq<T>, c: seq<T>)
    ensures a + (b + c) == (a + b) + c
  {
  }

  lemma {:induction false} ConsumeAppend<E>(decode: string -> Decoded<E>, a: string, b: string)
    ensures Consume(decode, a + b) == Resume(decode, Consume(decode, a), b)
    decreases |a|
  {
    match Find(a, "\n\n")
    case None =>
      var later := Consume(decode, a + b);
      assert [] + later.fired == later.fired;
    case Some(i) =>
      FindStable(a, b, "\n\n");
      assert (a + b)[..i] == a[..i];
      assert (a + b)[i + 2..] == a[i + 2..] + b;
      ConsumeAppend(decode, a[i + 2..], b);
      match ParseBlock(decode, a[..i])
      case NoEvent =>
      case MissingField =>
      case Event(e) =>
        var first := Consume(decode, a[i + 2..]);
        if !first.failed {
          Associative([e], first.fired, Consume(decode, first.rest + b).fired);
        }
  }

  // Events already fired, then one pass over the text that is left.
  function Then<E>(decode: string -> Decoded<E>, fired: seq<E>, rest: string): Outcome<E>
  {
    var later := Consume(decode, rest);
    later.(fired := fired + later.fired)
  }

  lemma BlockStep<E>(decode: string -> Decoded<E>, fired: seq<E>, rest: string)
    ensures match Find(rest, "\n\n")
            case None => Then(decode, fired, rest) == Outcome(fired, rest, false)
            case Some(i) =>
              match ParseBlock(decode, rest[..i])
              case NoEvent => Then(decode, fired, rest) == Then(decode, fired, rest[i + 2..])
              case Event(e) => Then(decode, fired, rest) == Then(decode, fired + [e], rest[i + 2..])
              case MissingField => Then(decode, fired, rest) == Outcome(fired, "", true)
  {
    match Find(rest, "\n\n")
    case None =>
    case Some(i) =>
      match ParseBlock(decode, rest[..i])
      case NoEvent =>
      case MissingField =>
      case Event(e) =>
        Associative(fired, [e], Consume(decode, rest[i + 2..]).fired);
  }

  // process_buffer: fires the complete blocks and returns the remainder.
  method ProcessBuffer<E>(decode: string -> Decoded<E>, buffer: string) returns (out: Outcome<E>)
    ensures out == Then(decode, [], buffer)
  {
    var fired, rest := [], buffer;
    var boundary := Find(rest, "\n\n");
    while boundary.Some?
      invariant boundary == Find(rest, "\n\n")
      invariant Then(decode, [], buffer) == Then(decode, fired, rest)
      decreases |rest|
    {
      BlockStep(decode, fired, rest);
      var payload := ParseBlock(decode, rest[..boundary.value]);
      rest := rest[boundary.value + 2..];
      if payload.MissingField? {
        return Outcome(fired, "", true);
      }
      if payload.Event? {
        fired := fired + [payload.event];
      }
      boundary := Find(rest, "\n\n");
    }
    BlockStep(decode, fired, rest);
    return Outcome(fired, rest, false);
  }

  function Concat(chunks: seq<string>): string
  {
    if chunks == [] then "" else Concat(chunks[..|chunks| - 1]) + chunks[|chunks| - 1]
  }

  lemma NothingReceived<E>(decode: string -> Decoded<E>)
    ensures Consume(decode, "") == Outcome([], "", false)
  {
  }

  lemma ConcatStep(chunks: seq<string>, used: nat)
    requires used < |chunks|
    ensures Concat(chunks[..used + 1]) == Concat(chunks[..used]) + chunks[used]
  {
    assert chunks[..used + 1][..used] == chunks[..used];
  }

  lemma StreamStep<E>(decode: string -> Decoded<E>, text: string, chunk: string, sofar: Outcome<E>, step: Outcome<E>)
    requires !sofar.failed && sofar == Consume(decode, text)
    requires step == Then(decode, [], sofar.rest + chunk)
    ensures step.(fired := sofar.fired + step.fired) == Consume(decode, text + chunk)
  {
    ConsumeAppend(decode, text, chunk);
    var later := Consume(decode, sofar.rest + chunk);
    assert [] + later.fired == later.fired;
  }

  // process_stream reads chunks until running() turns false, here before chunk
  // number stopAt. However the text is cut into chunks, it fires the same events,
  // in order, and keeps the same remainder as one pass over the text received.
  method ProcessStream<E>(decode: string -> Decoded<E>, chunks: seq<string>, stopAt: nat)
      returns (out: Outcome<E>, used: nat)
    ensures used <= |chunks| && used <= stopAt
    ensures !out.failed ==> used == |chunks| || used == stopAt
    ensures out == Consume(decode, Concat(chunks[..used]))
    ensures out.failed ==> out == Consume(decode, Concat(chunks))
  {
    out, used := Outcome([], "", false), 0;
    ghost var text := "";
    NothingReceived(decode);
    while used < |chunks|
      invariant used <= |chunks| && used <= stopAt && !out.failed
      invariant text == Concat(chunks[..used])
      invariant out == Consume(decode, text)
    {
      if used == stopAt {
        return;
      }
      var step := ProcessBuffer(decode, out.rest + chunks[used]);
      StreamStep(decode, text, chunks[used], out, step);
      ConcatStep(chunks, used);
      text := text + chunks[used];
      out := step.(fired := out.fired + step.fired);
      used := used + 1;
      if out.failed {
        FailureIsFinal(decode, chunks, used);
        return;
      }
    }
  }

  // Nothing received after a failure could have changed it.
  lemma {:induction false} FailureIsFinal<E>(decode: string -> Decoded<E>, chunks: seq<string>, used: nat)
    requires used <= |chunks| && Consume(decode, Concat(chunks[..used])).failed
    ensures Consume(decode, Concat(chunks)) == Consume(decode, Concat(chunks[..used]))
  {
    if used == |chunks| {
      assert chunks[..used] == chunks;
    } else {
      var init := chunks[..|chunks| - 1];
      assert init[..used] == chunks[..used];
      FailureIsFinal(decode, init, used);
      ConsumeAppend(decode, Concat(init), chunks[|chunks| - 1]);
    }
  }

  // ---------- blocks ----------

  lemma {:induction false} DataOfConcat(a: seq<string>, b: seq<string>)
    ensures DataOf(a + b) == DataOf(a) + DataOf(b)
  {
    if a == [] {
      assert a + b == b;
    } else {
      assert (a + b)[1..] == a[1..] + b && (a + b)[0] == a[0];
      DataOfConcat(a[1..], b);
      DataOfFirst(a);
      DataOfFirst(a + b);
    }
  }

  lemma DataOfFirst(lines: seq<string>)
    requires lines != []
    ensures DataOf(lines) == DataOf([lines[0]]) + DataOf(lines[1..])
  {
    assert [lines[0]][1..] == [] && DataOf([]) == [];
  }

  // Only lines that start with data: count, by what follows, stripped.
  lemma DataOfLine(line: string)
    ensures DataOf(["data:" + line]) == [Strip(line)]
    ensures !("data:" <= line) ==> DataOf([line]) == []
  {
    assert ("data:" + line)[5..] == line;
    assert [line][1..] == [] && ["data:" + line][1..] == [] && DataOf([]) == [];
    assert [Strip(line)] + [] == [Strip(line)];
  }

  // A block of lines, not blank at either end: without data lines nothing is
  // decoded, else the data of all of them, line by line.
  lemma BlockMeaning<E>(decode: string -> Decoded<E>, lines: seq<string>)
    requires lines != [] && (forall l :: l in lines ==> '\n' !in l) && Trimmed(Join(lines, "\n"))
    ensures ParseBlock(decode, Join(lines, "\n")) ==
            if forall l :: l in lines ==> !("data:" <= l) then NoEvent else decode(Join(DataOf(lines), "\n"))
  {
    SplitJoin(lines, "\n");
    NoData(lines);
  }

  lemma {:induction false} NoData(lines: seq<string>)
    ensures DataOf(lines) == [] <==> forall l :: l in lines ==> !("data:" <= l)
  {
    if lines != [] {
      NoData(lines[1..]);
      DataOfFirst(lines);
      assert lines == [lines[0]] + lines[1..];
      if "data:" <= lines[0] {
        DataOfLine(lines[0][5..]);
        assert lines[0] == "data:" + lines[0][5..];
        assert lines[0] in lines;
      } else {
        DataOfLine(lines[0]);
        assert DataOf(lines) == DataOf(lines[1..]);
        assert forall l :: l in lines <==> l == lines[0] || l in lines[1..];
      }
    }
  }

  // ---------- the relay's writer ----------

  // json.dumps of an object: no raw newline, no outer blanks.
  predicate IsPayload(p: string)
  {
    p != "" && Trimmed(p) && '\n' !in p
  }

  function WriteSsePayload(p: string): string
  {
    "data: " + p + "\n\n"
  }

  function WriteAll(ps: seq<string>): string
  {
    if ps == [] then "" else WriteSsePayload(ps[0]) + WriteAll(ps[1..])
  }

  // Decoding the payloads one after the other.
  function FireAll<E>(decode: string -> Decoded<E>, ps: seq<string>): Outcome<E>
  {
    if ps == [] then Outcome([], "", false)
    else
      match decode(ps[0])
      case NoEvent => FireAll(decode, ps[1..])
      case MissingField => Outcome([], "", true)
      case Event(e) =>
        var later := FireAll(decode, ps[1..]);
        later.(fired := [e] + later.fired)
  }

  lemma BlockOfPayload<E>(decode: string -> Decoded<E>, p: string)
    requires IsPayload(p)
    ensures ParseBlock(decode, "data: " + p) == decode(p)
  {
    var block := "data: " + p;
    assert block[|block| - 1] == p[|p| - 1];
    assert Strip(block) == block;
    assert forall j :: 0 <= j < |block| ==> block[j] != '\n';
    forall j
      ensures !OccursAt(block, "\n", j)
    {
      if 0 <= j < |block| {
        assert block[j..j + 1] == [block[j]];
      }
    }
    assert Split(block, "\n") == [block];
    var data := block[|DATA_PREFIX|..];
    assert data == " " + p;
    StripLeading(p);
    assert DataOf([block]) == [p];
  }

  lemma BlockEndsAtBlankLine(p: string, more: string)
    requires IsPayload(p)
    ensures Find(WriteSsePayload(p) + more, "\n\n") == Some(|p| + 6)
  {
    var text := WriteSsePayload(p) + more;
    var n := |p| + 6;
    assert text[n..n + 2] == "\n\n";
    forall j | 0 <= j < n
      ensures !OccursAt(text, "\n\n", j)
    {
      assert text[j] == ("data: " + p)[j];
      assert text[j] != '\n';
    }
    FindIs(text, "\n\n", n);
  }

  // Parsing what the relay wrote returns exactly the payloads, and nothing is left over.
  lemma {:induction false} WriteReadRoundTrip<E>(decode: string -> Decoded<E>, ps: seq<string>)
    requires forall p :: p in ps ==> IsPayload(p)
    ensures Consume(decode, WriteAll(ps)) == FireAll(decode, ps)
  {
    if ps != [] {
      var p, more := ps[0], WriteAll(ps[1..]);
      var text := WriteSsePayload(p) + more;
      BlockEndsAtBlankLine(p, more);
      assert text[..|p| + 6] == "data: " + p;
      assert text[|p| + 8..] == more;
      BlockOfPayload(decode, p);
      WriteReadRoundTrip(decode, ps[1..]);
    }
  }
}
