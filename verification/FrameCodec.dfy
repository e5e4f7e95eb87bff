/** The relay's wire format (phase4/relay-server.mjs: encodeFrame, createFrameDecoder): a four-byte
  big-endian length followed by that many bytes of JSON, decoded from a stream cut anywhere.

  JSON is a parameter: a function to bytes and a partial function back. */
module FrameCodec {
  import opened ByteStrings
  import opened Wrappers

  /** Writing a length of four gigabytes or more throws. */
  function EncodeFrame<M>(stringify: M -> Bytes, m: M): Option<Bytes> {
    var payload := stringify(m);
    if |payload| < UINT32_LIMIT then Some(WriteUInt32(|payload|) + payload) else None
  }

  /** What the decoder reports: a message with the bytes of its frame, a frame that is not JSON, or a
    length over the limit. */
  datatype Event<M> = Frame(message: M, bytes: Bytes) | BadJson(bytes: Bytes) | TooLarge(length: nat)

  function EventOf<M>(parse: Bytes -> Option<M>, frame: Bytes): Event<M>
    requires |frame| >= 4
  {
    var message := parse(frame[4..]);
    if message.Some? then Frame(message.value, frame) else BadJson(frame)
  }

  /** What one push makes of the bytes on hand: the events it reports and the bytes it keeps. */
  function Decode<M>(parse: Bytes -> Option<M>, max: nat, buf: Bytes): (seq<Event<M>>, Bytes)
    decreases |buf|
  {
    if |buf| < 4 then ([], buf)
    else
      var length := ReadUInt32(buf, 0);
      if length > max then ([TooLarge(length)], buf)
      else if |buf| < 4 + length then ([], buf)
      else
        var (events, rest) := Decode(parse, max, buf[4 + length..]);
        ([EventOf(parse, buf[..4 + length])] + events, rest)
  }

  class FrameDecoder<M> {
    const parse: Bytes -> Option<M>
    const max: nat
    var buf: Bytes

    constructor (parse: Bytes -> Option<M>, max: nat)
      ensures this.parse == parse && this.max == max && buf == []
    {
      this.parse, this.max, this.buf := parse, max, [];
    }

    method Push(chunk: Bytes) returns (events: seq<Event<M>>)
      modifies this`buf
      ensures (events, buf) == Decode(parse, max, old(buf) + chunk)
    {
      hide Decode;
      buf := buf + chunk;
      events := [];
      ghost var all := buf;
      assert [] + Decode(parse, max, buf).0 == Decode(parse, max, buf).0;
      while |buf| >= 4
        invariant Decode(parse, max, all) == (events + Decode(parse, max, buf).0, Decode(parse, max, buf).1)
        decreases |buf|
      {
        var length := ReadUInt32(buf, 0);
        if length > max {
          DecodeWaiting(parse, max, buf);
          events := events + [TooLarge(length)];
          return;
        }
        if |buf| < 4 + length {
          DecodeWaiting(parse, max, buf);
          assert events + [] == events;
          return;
        }
        DecodeNext(parse, max, buf);
        var frame := buf[..4 + length];
        buf := buf[4 + length..];
        var message := parse(frame[4..]);
        ghost var before, later := events, Decode(parse, max, buf).0;
        if message.None? {
          events := events + [BadJson(frame)];
        } else {
          events := events + [Frame(message.value, frame)];
        }
        assert before + ([EventOf(parse, frame)] + later) == (before + [EventOf(parse, frame)]) + later;
      }
      DecodeWaiting(parse, max, buf);
      assert events + [] == events;
    }
  }

  // ------------------------------------------------------------------ chunking

  /** Events other than a refused length. */
  function Frames<M>(events: seq<Event<M>>): seq<Event<M>> {
    if events == [] then []
    else if events[0].TooLarge? then Frames(events[1..])
    else [events[0]] + Frames(events[1..])
  }

  lemma FramesPush<M>(e: Event<M>, events: seq<Event<M>>)
    ensures Frames([e] + events) == (if e.TooLarge? then [] else [e]) + Frames(events)
  {
    assert ([e] + events)[1..] == events;
  }

  /** Cutting a stream in two: the first part yields its frames, the bytes it keeps continue with the
    second part. */
  lemma {:induction false} DecodeSplit<M>(parse: Bytes -> Option<M>, max: nat, a: Bytes, b: Bytes)
    ensures var (first, rest) := Decode(parse, max, a);
      var (second, kept) := Decode(parse, max, rest + b);
      Decode(parse, max, a + b) == (Frames(first) + second, kept)
    decreases |a|
  {
    hide EventOf, Decode;
    var (first, rest) := Decode(parse, max, a);
    if Waits(max, a) {
      DecodeWaiting(parse, max, a);
      assert Frames(first) == [];
      assert [] + Decode(parse, max, a + b).0 == Decode(parse, max, a + b).0;
    } else {
      var n := 4 + ReadUInt32(a, 0);
      assert !Waits(max, a + b) && (a + b)[..n] == a[..n] && (a + b)[n..] == a[n..] + b;
      DecodeNext(parse, max, a);
      DecodeNext(parse, max, a + b);
      DecodeSplit(parse, max, a[n..], b);
      var e, tail, second := EventOf(parse, a[..n]), Decode(parse, max, a[n..]).0, Decode(parse, max, rest + b).0;
      FramesPush(e, tail);
      EventIsFrame(parse, a[..n]);
      assert [e] + (Frames(tail) + second) == ([e] + Frames(tail)) + second;
    }
  }

  /** No complete acceptable frame at the front of the buffer. */
  predicate Waits(max: nat, buf: Bytes) {
    |buf| < 4 || ReadUInt32(buf, 0) > max || |buf| < 4 + ReadUInt32(buf, 0)
  }

  lemma DecodeWaiting<M>(parse: Bytes -> Option<M>, max: nat, buf: Bytes)
    requires Waits(max, buf)
    ensures Decode(parse, max, buf) == (if |buf| >= 4 && ReadUInt32(buf, 0) > max then [TooLarge(ReadUInt32(buf, 0))] else [], buf)
    ensures Frames(Decode(parse, max, buf).0) == []
  {
  }

  lemma DecodeNext<M>(parse: Bytes -> Option<M>, max: nat, buf: Bytes)
    requires !Waits(max, buf)
    ensures var n := 4 + ReadUInt32(buf, 0);
      var (events, rest) := Decode(parse, max, buf[n..]);
      Decode(parse, max, buf) == ([EventOf(parse, buf[..n])] + events, rest)
  {
  }

  lemma EventIsFrame<M>(parse: Bytes -> Option<M>, frame: Bytes)
    requires |frame| >= 4
    ensures !EventOf(parse, frame).TooLarge?
  {
  }

  function Concat(chunks: seq<Bytes>): Bytes {
    if chunks == [] then [] else Concat(chunks[..|chunks| - 1]) + chunks[|chunks| - 1]
  }

  /** Everything a fresh decoder reports while the chunks are pushed one by one, and what it keeps. */
  function PushAll<M>(parse: Bytes -> Option<M>, max: nat, chunks: seq<Bytes>): (seq<Event<M>>, Bytes) {
    if chunks == [] then ([], [])
    else
      var (events, buf) := PushAll(parse, max, chunks[..|chunks| - 1]);
      var (more, kept) := Decode(parse, max, buf + chunks[|chunks| - 1]);
      (events + more, kept)
  }

  lemma {:induction false} FramesConcat<M>(a: seq<Event<M>>, b: seq<Event<M>>)
    ensures Frames(a + b) == Frames(a) + Frames(b)
  {
    if a == [] {
      assert a + b == b;
    } else {
      FramesPush(a[0], a[1..] + b);
      FramesPush(a[0], a[1..]);
      assert a == [a[0]] + a[1..] && a + b == [a[0]] + (a[1..] + b);
      hide Frames;
      FramesConcat(a[1..], b);
    }
  }

  lemma {:induction false} FramesIdempotent<M>(a: seq<Event<M>>)
    ensures Frames(Frames(a)) == Frames(a)
  {
    if a != [] {
      FramesIdempotent(a[1..]);
      if !a[0].TooLarge? {
        FramesPush(a[0], Frames(a[1..]));
      }
    }
  }

  /** Chunk independence: for every byte stream, the frames reported and the bytes kept are those of
    the whole stream at once, however it is cut. */
  lemma {:induction false} ChunksDoNotMatter<M>(parse: Bytes -> Option<M>, max: nat, chunks: seq<Bytes>)
    ensures var (events, kept) := PushAll(parse, max, chunks);
      var (whole, rest) := Decode(parse, max, Concat(chunks));
      Frames(events) == Frames(whole) && kept == rest
  {
    hide Decode;
    if chunks == [] {
      NothingToDecode(parse, max);
    } else {
      var init, chunk := chunks[..|chunks| - 1], chunks[|chunks| - 1];
      ChunksDoNotMatter(parse, max, init);
      DecodeSplit(parse, max, Concat(init), chunk);
      var (events, buf) := PushAll(parse, max, init);
      var more := Decode(parse, max, buf + chunk).0;
      FramesConcat(events, more);
      FramesConcat(Frames(Decode(parse, max, Concat(init)).0), more);
      FramesIdempotent(Decode(parse, max, Concat(init)).0);
    }
  }

  lemma NothingToDecode<M>(parse: Bytes -> Option<M>, max: nat)
    ensures Decode(parse, max, []) == ([], [])
  {
  }

  // ------------------------------------------------------------------ round trip

  function EncodeAll<M>(stringify: M -> Bytes, ms: seq<M>): Option<Bytes> {
    if ms == [] then Some([])
    else
      var first, rest := EncodeFrame(stringify, ms[0]), EncodeAll(stringify, ms[1..]);
      if first.Some? && rest.Some? then Some(first.value + rest.value) else None
  }

  /** The messages reported, in order. */
  function Messages<M>(events: seq<Event<M>>): seq<M> {
    if events == [] then []
    else if events[0].Frame? then [events[0].message] + Messages(events[1..])
    else Messages(events[1..])
  }

  lemma DecodeEncodedFirst<M>(stringify: M -> Bytes, parse: Bytes -> Option<M>, max: nat, m: M, rest: Bytes)
    requires parse(stringify(m)) == Some(m) && |stringify(m)| <= max && EncodeFrame(stringify, m).Some?
    ensures var frame := EncodeFrame(stringify, m).value;
      Decode(parse, max, frame + rest) == ([Frame(m, frame)] + Decode(parse, max, rest).0, Decode(parse, max, rest).1)
  {
    var payload := stringify(m);
    var frame := EncodeFrame(stringify, m).value;
    var buf := frame + rest;
    WrittenIsRead(|payload|);
    assert buf[..4] == WriteUInt32(|payload|);
    assert ReadUInt32(buf, 0) == ReadUInt32(buf[..4], 0);
    assert buf[..4 + |payload|] == frame && frame[4..] == payload && buf[4 + |payload|..] == rest;
  }

  /** Round trip: any list of messages within the size limit, encoded, concatenated and cut into
    chunks in any way, comes out as exactly these messages in order, with nothing left over. */
  lemma RoundTrip<M>(stringify: M -> Bytes, parse: Bytes -> Option<M>, max: nat, ms: seq<M>, chunks: seq<Bytes>)
    requires forall i | 0 <= i < |ms| :: parse(stringify(ms[i])) == Some(ms[i]) && |stringify(ms[i])| <= max
    requires EncodeAll(stringify, ms) == Some(Concat(chunks))
    ensures var (events, kept) := PushAll(parse, max, chunks);
      Messages(Frames(events)) == ms && |Frames(events)| == |ms| && kept == []
  {
    ChunksDoNotMatter(parse, max, chunks);
    DecodeEncodedAll(stringify, parse, max, ms);
  }

  lemma {:induction false} DecodeEncodedAll<M>(stringify: M -> Bytes, parse: Bytes -> Option<M>, max: nat, ms: seq<M>)
    requires forall i | 0 <= i < |ms| :: parse(stringify(ms[i])) == Some(ms[i]) && |stringify(ms[i])| <= max
    requires EncodeAll(stringify, ms).Some?
    ensures var (events, rest) := Decode(parse, max, EncodeAll(stringify, ms).value);
      Messages(Frames(events)) == ms && |Frames(events)| == |ms| && rest == []
  {
    hide Decode;
    if ms == [] {
      NothingToDecode(parse, max);
    } else {
      var rest := EncodeAll(stringify, ms[1..]).value;
      DecodeEncodedFirst(stringify, parse, max, ms[0], rest);
      DecodeEncodedAll(stringify, parse, max, ms[1..]);
      var e, tail := Frame(ms[0], EncodeFrame(stringify, ms[0]).value), Decode(parse, max, rest).0;
      FramesPush(e, tail);
      assert ([e] + Frames(tail))[1..] == Frames(tail);
      assert [ms[0]] + ms[1..] == ms;
    }
  }

  // ------------------------------------------------------------------ limits and conservation

  /** A message over the limit stalls the decoder for good: whatever follows, no frame is reported any
    more, only the same refusal at every push. */
  lemma OversizeStalls<M>(stringify: M -> Bytes, parse: Bytes -> Option<M>, max: nat, m: M, more: Bytes)
    requires |stringify(m)| > max && EncodeFrame(stringify, m).Some?
    ensures var buf := EncodeFrame(stringify, m).value + more;
      Decode(parse, max, buf) == ([TooLarge(|stringify(m)|)], buf)
  {
    var payload := stringify(m);
    var buf := EncodeFrame(stringify, m).value + more;
    WrittenIsRead(|payload|);
    assert buf[..4] == WriteUInt32(|payload|);
    assert ReadUInt32(buf, 0) == ReadUInt32(buf[..4], 0);
  }

  /** So a message gets through if and only if it is within the limit. */
  lemma GetsThroughIff<M>(stringify: M -> Bytes, parse: Bytes -> Option<M>, max: nat, m: M)
    requires parse(stringify(m)) == Some(m) && EncodeFrame(stringify, m).Some?
    ensures Messages(Decode(parse, max, EncodeFrame(stringify, m).value).0) == [m] <==> |stringify(m)| <= max
  {
    hide Decode;
    var frame := EncodeFrame(stringify, m).value;
    assert frame + [] == frame;
    if |stringify(m)| <= max {
      DecodeEncodedFirst(stringify, parse, max, m, []);
      NothingToDecode(parse, max);
      assert [Frame(m, frame)] + [] == [Frame(m, frame)];
    } else {
      OversizeStalls(stringify, parse, max, m, []);
    }
  }

  function FrameBytes<M>(events: seq<Event<M>>): Bytes {
    if events == [] then []
    else (if events[0].TooLarge? then [] else events[0].bytes) + FrameBytes(events[1..])
  }

  /** Nothing is lost or invented: the bytes of the frames handed on, followed by the bytes kept, are
    the bytes received. */
  lemma {:induction false} BytesConserved<M>(parse: Bytes -> Option<M>, max: nat, buf: Bytes)
    ensures var (events, rest) := Decode(parse, max, buf); FrameBytes(events) + rest == buf
    decreases |buf|
  {
    hide Decode;
    if Waits(max, buf) {
      DecodeWaiting(parse, max, buf);
    } else {
      var n := 4 + ReadUInt32(buf, 0);
      DecodeNext(parse, max, buf);
      BytesConserved(parse, max, buf[n..]);
      var tail := Decode(parse, max, buf[n..]).0;
      assert ([EventOf(parse, buf[..n])] + tail)[1..] == tail;
      assert buf == buf[..n] + buf[n..];
    }
  }

  // ------------------------------------------------------------------ what frames are

  /** The number in the first four bytes, highest byte first. */
  function Announces(frame: Bytes): nat
    requires |frame| >= 4
  {
    frame[0] as int * 0x100_0000 + frame[1] as int * 0x1_0000 + frame[2] as int * 0x100 + frame[3]
  }

  /** Encoding fails exactly for four gigabytes and more; otherwise four bytes announce the payload that
    follows. */
  lemma EncodedIs<M>(stringify: M -> Bytes, m: M)
    ensures var frame, payload := EncodeFrame(stringify, m), stringify(m);
      && (frame.Some? <==> |payload| <= 0xFFFF_FFFF)
      && (frame.Some? ==> |frame.value| == 4 + |payload| && Announces(frame.value) == |payload| && frame.value[4..] == payload)
  {
    var payload := stringify(m);
    if |payload| < UINT32_LIMIT {
      WrittenIsRead(|payload|);
      var frame := EncodeFrame(stringify, m).value;
      assert frame[..4] == WriteUInt32(|payload|);
      assert ReadUInt32(frame, 0) == ReadUInt32(frame[..4], 0);
    }
  }

  /** A frame as long as it announces and within the limit, reported as the message its payload parses to
    or as bad. */
  predicate Framed<M(==)>(parse: Bytes -> Option<M>, max: nat, e: Event<M>) {
    && !e.TooLarge? && |e.bytes| >= 4 && Announces(e.bytes) == |e.bytes| - 4 <= max
    && parse(e.bytes[4..]) == if e.Frame? then Some(e.message) else None
  }

  /** Bytes that do not start with a complete frame. */
  predicate Incomplete(max: nat, rest: Bytes) {
    |rest| >= 4 && Announces(rest) <= max ==> |rest| < 4 + Announces(rest)
  }

  predicate AllFramed<M(==)>(parse: Bytes -> Option<M>, max: nat, frames: seq<Event<M>>) {
    forall i | 0 <= i < |frames| :: Framed(parse, max, frames[i])
  }

  /** A refusal of what the bytes announce, if it is too much. */
  function Refusal<M>(max: nat, rest: Bytes): seq<Event<M>> {
    if |rest| >= 4 && Announces(rest) > max then [TooLarge(Announces(rest))] else []
  }

  /** What decoding reports: the frames the bytes start with, each in its own right, up to what is kept;
    and at the end a refusal exactly if what is kept announces too much. */
  lemma {:induction false} DecodedIs<M>(parse: Bytes -> Option<M>, max: nat, buf: Bytes)
    ensures var (events, rest) := Decode(parse, max, buf);
      && AllFramed(parse, max, Frames(events)) && FrameBytes(Frames(events)) + rest == buf && Incomplete(max, rest)
      && events == Frames(events) + Refusal(max, rest)
    decreases |buf|
  {
    hide Decode, Frames, FrameBytes, AllFramed, Refusal, EventOf, Framed;
    if Waits(max, buf) {
      WaitingIs(parse, max, buf);
    } else {
      var n := 4 + ReadUInt32(buf, 0);
      DecodeNext(parse, max, buf);
      DecodedIs(parse, max, buf[n..]);
      var e := EventOf(parse, buf[..n]);
      var (tail, rest) := Decode(parse, max, buf[n..]);
      EventIsFrame(parse, buf[..n]);
      FramesPush(e, tail);
      FirstIsFramed(parse, max, buf, n);
      FramedPush(parse, max, e, Frames(tail));
      assert ([e] + Frames(tail)) + Refusal(max, rest) == [e] + (Frames(tail) + Refusal(max, rest));
      assert buf[..n] + FrameBytes(Frames(tail)) + rest == buf[..n] + (FrameBytes(Frames(tail)) + rest);
      assert buf == buf[..n] + buf[n..];
    }
  }

  lemma WaitingIs<M>(parse: Bytes -> Option<M>, max: nat, buf: Bytes)
    requires Waits(max, buf)
    ensures var (events, rest) := Decode(parse, max, buf);
      && rest == buf && Frames(events) == [] && FrameBytes<M>([]) == [] && events == Refusal(max, buf)
      && AllFramed<M>(parse, max, []) && Incomplete(max, buf)
  {
  }

  lemma FirstIsFramed<M>(parse: Bytes -> Option<M>, max: nat, buf: Bytes, n: nat)
    requires !Waits(max, buf) && n == 4 + ReadUInt32(buf, 0)
    ensures var e := EventOf(parse, buf[..n]); Framed(parse, max, e) && !e.TooLarge? && e.bytes == buf[..n]
  {
  }

  lemma FramedPush<M>(parse: Bytes -> Option<M>, max: nat, e: Event<M>, frames: seq<Event<M>>)
    requires Framed(parse, max, e) && !e.TooLarge?
    ensures AllFramed(parse, max, [e] + frames) <==> AllFramed(parse, max, frames)
    ensures FrameBytes([e] + frames) == e.bytes + FrameBytes(frames)
  {
    hide Framed;
    var all := [e] + frames;
    assert all[1..] == frames && all[0] == e;
    assert forall i | 0 <= i < |frames| :: all[i + 1] == frames[i];
  }
}
