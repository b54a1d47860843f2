// Docker's multiplexed log stream (src/core/docker_mcp/log_decode.py), on bytes:
// the text decoding of each chunk and the final strip come after this.
module DockerLogs {

  import opened Bytes

  // An 8-byte header: stream type, three zero bytes, big-endian payload size.
  datatype Frame = Frame(streamType: byte, payload: bytes)

  predicate ValidFrame(f: Frame)
  {
    (f.streamType == 1 || f.streamType == 2) && |f.payload| < 0x1_0000_0000
  }

  function EncodeFrame(f: Frame): (r: bytes)
    requires ValidFrame(f)
    ensures |r| == 8 + |f.payload|
  {
    [f.streamType, 0, 0, 0] + BigEndian32(|f.payload|) + f.payload
  }

  predicate ValidFrames(fs: seq<Frame>)
  {
    forall f :: f in fs ==> ValidFrame(f)
  }

  function EncodeAll(fs: seq<Frame>): bytes
    requires ValidFrames(fs)
  {
    if fs == [] then [] else EncodeFrame(fs[0]) + EncodeAll(fs[1..])
  }

  function Payloads(fs: seq<Frame>): bytes
  {
    if fs == [] then [] else fs[0].payload + Payloads(fs[1..])
  }

  function Flatten(chunks: seq<bytes>): bytes
  {
    if chunks == [] then [] else Flatten(chunks[..|chunks| - 1]) + chunks[|chunks| - 1]
  }

  predicate LooksLikeRawStream(raw: bytes)
  {
    |raw| >= 8 && (raw[0] == 1 || raw[0] == 2) && raw[1..4] == [0, 0, 0]
  }

  // The bytes a raw stream carries, read frame by frame; a trailing piece too
  // short for a header is passed through.
  function Demultiplex(raw: bytes): bytes
    decreases |raw|
  {
    if |raw| < 8 then raw
    else
      var end := 8 + FromBigEndian32(raw[4..8]);
      Slice(raw, 8, end) + Demultiplex(Slice(raw, end, |raw|))
  }

  method ReadFrame(raw: bytes, cursor: nat) returns (chunk: bytes, next: nat)
    requires cursor + 8 <= |raw|
    ensures next == cursor + 8 + FromBigEndian32(raw[cursor + 4..cursor + 8])
    ensures chunk == Slice(raw, cursor + 8, next)
  {
    var headerEnd := cursor + 8;
    var frameSize := FromBigEndian32(raw[cursor + 4..headerEnd]);
    chunk := Slice(raw, headerEnd, headerEnd + frameSize);
    next := headerEnd + frameSize;
  }

  // What is left to read from the cursor on.
  function Unread(raw: bytes, cursor: nat): bytes
  {
    Slice(raw, cursor, |raw|)
  }

  // The cursor strictly advances, and the chunks put together are the
  // demultiplexed bytes.
  method DecodeRawStream(raw: bytes) returns (chunks: seq<bytes>)
    ensures Flatten(chunks) == Demultiplex(raw)
  {
    chunks := [];
    var cursor := 0;
    assert Unread(raw, 0) == raw;
    while cursor + 8 <= |raw|
      invariant Flatten(chunks) + Demultiplex(Unread(raw, cursor)) == Demultiplex(raw)
      decreases |raw| - cursor
    {
      var chunk, next := ReadFrame(raw, cursor);
      RestAfterFrame(raw, cursor, next);
      AppendChunk(chunks, chunk, Demultiplex(Unread(raw, next)));
      chunks := chunks + [chunk];
      cursor := next;
    }
    ShortTail(raw, cursor);
    if cursor < |raw| {
      AppendChunk(chunks, raw[cursor..], []);
      chunks := chunks + [raw[cursor..]];
    }
    assert Flatten(chunks) + [] == Flatten(chunks);
  }

  lemma ShortTail(raw: bytes, cursor: nat)
    requires cursor + 8 > |raw|
    ensures Demultiplex(Unread(raw, cursor)) == if cursor < |raw| then raw[cursor..] + [] else []
  {
  }

  lemma AppendChunk(chunks: seq<bytes>, chunk: bytes, rest: bytes)
    ensures Flatten(chunks + [chunk]) + rest == Flatten(chunks) + (chunk + rest)
  {
    assert (chunks + [chunk])[..|chunks|] == chunks;
  }

  lemma RestAfterFrame(raw: bytes, cursor: nat, next: nat)
    requires cursor + 8 <= |raw| && next == cursor + 8 + FromBigEndian32(raw[cursor + 4..cursor + 8])
    ensures Demultiplex(Unread(raw, cursor)) == Slice(raw, cursor + 8, next) + Demultiplex(Unread(raw, next))
  {
    FrameSlices(raw, cursor, next);
    FirstFrame(Unread(raw, cursor), next - cursor, Slice(raw, cursor + 8, next), Unread(raw, next));
  }

  lemma FrameSlices(raw: bytes, cursor: nat, next: nat)
    requires cursor + 8 <= |raw| && next >= cursor
    ensures var rest := raw[cursor..];
            && Unread(raw, cursor) == rest && rest[4..8] == raw[cursor + 4..cursor + 8]
            && Slice(rest, 8, next - cursor) == Slice(raw, cursor + 8, next)
            && Slice(rest, next - cursor, |rest|) == Unread(raw, next)
  {
    SliceShift(raw, cursor, 8, next - cursor);
    SliceShift(raw, cursor, next - cursor, |raw| - cursor);
  }

  lemma FirstFrame(raw: bytes, end: nat, payload: bytes, rest: bytes)
    requires |raw| >= 8 && end == 8 + FromBigEndian32(raw[4..8])
    requires payload == Slice(raw, 8, end) && rest == Slice(raw, end, |raw|)
    ensures Demultiplex(raw) == payload + Demultiplex(rest)
  {
  }

  lemma SliceShift(raw: bytes, cursor: nat, i: nat, j: nat)
    requires cursor <= |raw|
    ensures Slice(raw[cursor..], i, j) == Slice(raw, cursor + i, cursor + j)
  {
  }

  // decode_logs_output before text decoding.
  method DecodeLogsOutput(raw: bytes) returns (out: bytes)
    ensures out == if LooksLikeRawStream(raw) then Demultiplex(raw) else raw
    // Output too short for a header, or whose first bytes are not those of one,
    // such as any text, is passed through.
    ensures |raw| < 8 ==> out == raw
    ensures |raw| >= 8 && (raw[0] == 0 || raw[0] > 2 || raw[1] != 0 || raw[2] != 0 || raw[3] != 0) ==> out == raw
    ensures |raw| >= 8 && (raw[0] == 1 || raw[0] == 2) && raw[1] == 0 && raw[2] == 0 && raw[3] == 0 ==>
              out == Demultiplex(raw)
  {
    if raw == [] {
      return [];
    }
    if LooksLikeRawStream(raw) {
      var chunks := DecodeRawStream(raw);
      return Flatten(chunks);
    }
    return raw;
  }

  // ---------- round trip ----------

  lemma FrameThenRest(f: Frame, rest: bytes)
    requires ValidFrame(f)
    ensures Demultiplex(EncodeFrame(f) + rest) == f.payload + Demultiplex(rest)
  {
    var raw := EncodeFrame(f) + rest;
    assert raw[4..8] == BigEndian32(|f.payload|);
    assert Slice(raw, 8, 8 + |f.payload|) == f.payload;
    assert Slice(raw, 8 + |f.payload|, |raw|) == rest;
  }

  // Frames followed by anything: their payloads, then whatever the rest holds.
  lemma {:induction false} FramesThenRest(fs: seq<Frame>, rest: bytes)
    requires ValidFrames(fs)
    ensures Demultiplex(EncodeAll(fs) + rest) == Payloads(fs) + Demultiplex(rest)
  {
    if fs == [] {
      assert EncodeAll(fs) + rest == rest && Payloads(fs) + Demultiplex(rest) == Demultiplex(rest);
    } else {
      assert EncodeAll(fs) + rest == EncodeFrame(fs[0]) + (EncodeAll(fs[1..]) + rest);
      FrameThenRest(fs[0], EncodeAll(fs[1..]) + rest);
      FramesThenRest(fs[1..], rest);
    }
  }

  // A complete stream decodes to its payloads, and is recognised as a stream.
  lemma StreamRoundTrip(fs: seq<Frame>)
    requires ValidFrames(fs) && fs != []
    ensures LooksLikeRawStream(EncodeAll(fs))
    ensures Demultiplex(EncodeAll(fs)) == Payloads(fs)
  {
    FramesThenRest(fs, []);
    assert EncodeAll(fs) + [] == EncodeAll(fs) && Payloads(fs) + [] == Payloads(fs);
    assert ValidFrame(fs[0]);
    FrameLooksRaw(fs[0], EncodeAll(fs[1..]));
  }

  lemma FrameLooksRaw(f: Frame, rest: bytes)
    requires ValidFrame(f)
    ensures LooksLikeRawStream(EncodeFrame(f) + rest)
  {
    var raw := EncodeFrame(f) + rest;
    assert raw[1] == 0 && raw[2] == 0 && raw[3] == 0;
  }

  // A stream cut inside a payload yields the payload up to the cut; one cut
  // inside a header yields the header bytes themselves.
  lemma CutStream(fs: seq<Frame>, f: Frame, k: nat)
    requires ValidFrames(fs) && ValidFrame(f) && k < |EncodeFrame(f)|
    ensures Demultiplex(EncodeAll(fs) + EncodeFrame(f)[..k]) ==
            Payloads(fs) + (if k < 8 then EncodeFrame(f)[..k] else f.payload[..k - 8])
  {
    FramesThenRest(fs, EncodeFrame(f)[..k]);
    if k >= 8 {
      CutFrame(f, k);
    }
  }

  lemma CutFrame(f: Frame, k: nat)
    requires ValidFrame(f) && 8 <= k < |EncodeFrame(f)|
    ensures Demultiplex(EncodeFrame(f)[..k]) == f.payload[..k - 8]
  {
    var whole := EncodeFrame(f);
    var piece := whole[..k];
    assert whole[4..8] == BigEndian32(|f.payload|) && whole[8..] == f.payload;
    assert piece[4..8] == whole[4..8];
    assert piece[8..k] == whole[8..][..k - 8];
    FirstFrame(piece, 8 + |f.payload|, f.payload[..k - 8], []);
  }

  // The decoder returns exactly the logged bytes when, and only when, the
  // stream was not cut inside a header.
  lemma CutKeepsPrefix(fs: seq<Frame>, f: Frame, k: nat)
    requires ValidFrames(fs) && ValidFrame(f) && 0 < k < |EncodeFrame(f)|
    ensures Demultiplex(EncodeAll(fs) + EncodeFrame(f)[..k]) <= Payloads(fs + [f])
            <==> k >= 8 || EncodeFrame(f)[..k] <= f.payload
  {
    CutStream(fs, f, k);
    PayloadsAppend(fs, f);
    var got := Demultiplex(EncodeAll(fs) + EncodeFrame(f)[..k]);
    if k < 8 {
      PrefixAfter(Payloads(fs), EncodeFrame(f)[..k], f.payload);
    } else {
      PrefixAfter(Payloads(fs), f.payload[..k - 8], f.payload);
    }
  }

  // Two one-byte lines, the stream cut after the first byte of the second
  // header: it is recognised as a stream, and the header byte is shown.
  lemma HeaderByteShown()
    ensures var f, g := Frame(1, [65]), Frame(1, [66]);
            var raw := EncodeAll([f]) + EncodeFrame(g)[..1];
            && LooksLikeRawStream(raw) && Demultiplex(raw) == [65, 1]
            && !(Demultiplex(raw) <= Payloads([f] + [g]))
  {
    var f, g := Frame(1, [65]), Frame(1, [66]);
    assert [f][1..] == [] && EncodeAll([f][1..]) == [] && EncodeAll([f]) == EncodeFrame(f);
    FrameLooksRaw(f, EncodeFrame(g)[..1]);
    assert EncodeFrame(g)[..1] == [1];
    CutStream([f], g, 1);
    assert Payloads([f]) == [65];
    PayloadsAppend([f], g);
    assert Payloads([f] + [g])[1] == 66;
  }

  lemma PrefixAfter(a: bytes, b: bytes, c: bytes)
    ensures a + b <= a + c <==> b <= c
  {
    if a + b <= a + c {
      assert b == (a + b)[|a|..] && c == (a + c)[|a|..];
    }
  }

  lemma {:induction false} PayloadsAppend(fs: seq<Frame>, f: Frame)
    ensures Payloads(fs + [f]) == Payloads(fs) + f.payload
  {
    if fs == [] {
      assert fs + [f] == [f];
    } else {
      assert (fs + [f])[1..] == fs[1..] + [f];
      PayloadsAppend(fs[1..], f);
    }
  }
}
