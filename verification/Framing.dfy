/**
Writing length-prefixed packets to a byte stream that accepts as much or as little as it likes
(base/src/net/rw.rs), and what a reader of that stream can recover whatever the stream did.
*/
module Framing {

  type Byte = b: nat | b < 256

  import opened Options

  const INLINE_PREFIX_CAPACITY: nat := 16

  // ---------------------------------------------------------------- prefixes and packets

  // A prefix stored in a fixed buffer.
  datatype InlinePrefix = InlinePrefix(len: nat, data: seq<Byte>)
  {
    ghost predicate Valid() { len <= INLINE_PREFIX_CAPACITY == |data| }

    function AsSlice(): seq<Byte>
      requires Valid()
    {
      data[..len]
    }
  }

  datatype EncodedPacket =
    | Single(data: seq<Byte>)
    | Prefixed(prefix: InlinePrefix, payload: seq<Byte>)
  {
    ghost predicate Valid() { Prefixed? ==> prefix.Valid() }

    // The bytes the packet stands for.
    function Bytes(): seq<Byte>
      requires Valid()
    {
      if Single? then data else prefix.AsSlice() + payload
    }
  }

  method NewInlinePrefix(prefix: seq<Byte>) returns (r: Option<InlinePrefix>)
    ensures r.Some? <==> |prefix| <= INLINE_PREFIX_CAPACITY
    ensures r.Some? ==> r.value.Valid() && r.value.AsSlice() == prefix
  {
    if |prefix| > INLINE_PREFIX_CAPACITY {
      return None;
    }
    var data: seq<Byte> := seq(INLINE_PREFIX_CAPACITY, _ => 0);
    for idx := 0 to |prefix|
      invariant |data| == INLINE_PREFIX_CAPACITY && data[..idx] == prefix[..idx]
    {
      data := data[idx := prefix[idx]];
    }
    r := Some(InlinePrefix(|prefix|, data));
  }

  // The frame of a packet: its length in two big-endian bytes, then its bytes.
  function Frame(data: seq<Byte>): (frame: seq<Byte>)
    requires |data| < 0x1_0000
    ensures |frame| == 2 + |data|
  {
    [|data| / 256, |data| % 256] + data
  }

  // `U16BeLengthPrefixEncoder::encode_tcp`
  method EncodeTcp(data: seq<Byte>) returns (r: Option<EncodedPacket>)
    ensures r.Some? <==> |data| < 0x1_0000
    ensures r.Some? ==> r.value.Valid() && r.value.Bytes() == Frame(data)
  {
    if |data| > 0xFFFF {
      return None;
    }
    var prefix := NewInlinePrefix([|data| / 256, |data| % 256]);
    r := Some(Prefixed(prefix.value, data));
  }

  // ---------------------------------------------------------------- the stream

  datatype WriteResult = Written(count: nat) | Failed

  // A peer that takes any number of bytes of each write, or fails.
  class Stream {
    ghost var emitted: seq<Byte>

    constructor ()
      ensures emitted == []
    {
      emitted := [];
    }

    method Write(buf: seq<Byte>) returns (r: WriteResult)
      modifies this
      ensures r.Written? ==> r.count <= |buf| && emitted == old(emitted) + buf[..r.count]
      ensures r.Failed? ==> emitted == old(emitted)
    {
      if * {
        var n: nat :| n <= |buf|;
        emitted := emitted + buf[..n];
        return Written(n);
      }
      r := Failed;
    }

    method WriteVectored(first: seq<Byte>, second: seq<Byte>) returns (r: WriteResult)
      modifies this
      ensures r.Written? ==> r.count <= |first| + |second| && emitted == old(emitted) + (first + second)[..r.count]
      ensures r.Failed? ==> emitted == old(emitted)
    {
      r := Write(first + second);
    }

    // What the stream has taken of a write when the write is dropped: never all of it.
    method TakePart(buf: seq<Byte>) returns (sent: nat)
      requires buf != []
      modifies this
      ensures sent < |buf| && emitted == old(emitted) + buf[..sent]
    {
      sent :| 0 <= sent < |buf|;
      emitted := emitted + buf[..sent];
    }
  }

  // `sent` is a proper prefix of `whole`.
  ghost predicate CutShort(sent: seq<Byte>, whole: seq<Byte>) { sent < whole }

  // Emits both slices in full or stops part way, whatever the stream does; zero progress is an error.
  method WriteAllVectored2(stream: Stream, prefix: seq<Byte>, payload: seq<Byte>) returns (ok: bool)
    modifies stream
    ensures ok ==> stream.emitted == old(stream.emitted) + (prefix + payload)
    ensures !ok ==> exists sent :: CutShort(sent, prefix + payload) && stream.emitted == old(stream.emitted) + sent
  {
    var first, second := prefix, payload;
    ghost var sent := [];
    assert old(stream.emitted) + [] == stream.emitted;
    while first != [] || second != []
      invariant sent + (first + second) == prefix + payload
      invariant stream.emitted == old(stream.emitted) + sent
      decreases |first| + |second|
    {
      ghost var left := first + second;
      ghost var before := stream.emitted;
      var r;
      if first == [] {
        r := stream.Write(second);
      } else if second == [] {
        r := stream.Write(first);
      } else {
        r := stream.WriteVectored(first, second);
      }
      if r.Failed? {
        assert CutShort(sent, prefix + payload);
        return false;
      }
      var written := r.count;
      assert stream.emitted == before + left[..written];
      if written == 0 {
        assert CutShort(sent, prefix + payload);
        return false;
      }
      if written < |first| {
        first := first[written..];
      } else {
        var secondWritten := written - |first|;
        first := [];
        second := second[if secondWritten < |second| then secondWritten else |second|..];
      }
      assert first + second == left[written..];
      assert sent + left == (sent + left[..written]) + left[written..];
      sent := sent + left[..written];
    }
    ok := true;
  }

  method WriteEncodedPacket(stream: Stream, packet: EncodedPacket) returns (ok: bool)
    requires packet.Valid()
    modifies stream
    ensures ok ==> stream.emitted == old(stream.emitted) + packet.Bytes()
    ensures !ok ==> exists sent :: CutShort(sent, packet.Bytes()) && stream.emitted == old(stream.emitted) + sent
  {
    match packet
    case Single(data) =>
      ok := WriteAllVectored2(stream, [], data);
      assert [] + data == data;
    case Prefixed(prefix, payload) =>
      ok := WriteAllVectored2(stream, prefix.AsSlice(), payload);
  }

  // ---------------------------------------------------------------- what the reader recovers

  ghost predicate Framable(packets: seq<seq<Byte>>) { forall p <- packets :: |p| < 0x1_0000 }

  function Frames(packets: seq<seq<Byte>>): seq<Byte>
    requires Framable(packets)
  {
    if packets == [] then [] else Frame(packets[0]) + Frames(packets[1..])
  }

  // The length that the first two bytes announce.
  function Length(bytes: seq<Byte>): (n: nat)
    requires |bytes| >= 2
  {
    256 * (bytes[0] as int) + bytes[1] as int
  }

  lemma {:induction false} FrameThen(data: seq<Byte>, tail: seq<Byte>)
    requires |data| < 0x1_0000
    ensures var bytes := Frame(data) + tail;
      Length(bytes) == |data| && bytes[2..2 + |data|] == data && bytes[2 + |data|..] == tail
  {
  }

  lemma {:induction false} FrameBegun(data: seq<Byte>, tail: seq<Byte>)
    requires |data| < 0x1_0000 && CutShort(tail, Frame(data)) && |tail| >= 2
    ensures Length(tail) == |data| && |tail| < 2 + |data|
  {
    assert tail[0] == Frame(data)[0] && tail[1] == Frame(data)[1];
  }

  // A reader of the byte stream: the complete packets, and the bytes of an incomplete one.
  function Parse(bytes: seq<Byte>): (seq<seq<Byte>>, seq<Byte>)
    decreases |bytes|
  {
    if |bytes| < 2 then ([], bytes)
    else
      var n := Length(bytes);
      if |bytes| < 2 + n then ([], bytes)
      else
        var (packets, rest) := Parse(bytes[2 + n..]);
        ([bytes[2..2 + n]] + packets, rest)
  }

  // Nothing that could complete a frame: no bytes, or a proper prefix of one frame.
  ghost predicate Partial(tail: seq<Byte>) {
    tail == [] || exists data: seq<Byte> :: |data| < 0x1_0000 && CutShort(tail, Frame(data))
  }

  lemma {:induction false} ParsePartial(tail: seq<Byte>)
    requires Partial(tail)
    ensures Parse(tail) == ([], tail)
  {
    hide Length, Frame;
    if |tail| >= 2 {
      var data: seq<Byte> :| |data| < 0x1_0000 && CutShort(tail, Frame(data));
      FrameBegun(data, tail);
    }
  }

  lemma {:induction false} ParseStep(p: seq<Byte>, rest: seq<Byte>)
    requires |p| < 0x1_0000
    ensures Parse(Frame(p) + rest) == ([p] + Parse(rest).0, Parse(rest).1)
  {
    hide Length, Frame;
    FrameThen(p, rest);
  }

  // Frames parse uniquely: the reader gets back the packets, and the incomplete frame after them.
  lemma {:induction false} ParseFrames(packets: seq<seq<Byte>>, tail: seq<Byte>)
    requires Framable(packets) && Partial(tail)
    ensures Parse(Frames(packets) + tail) == (packets, tail)
    decreases |packets|
  {
    hide Parse, Frame, Partial;
    if packets == [] {
      assert Frames(packets) + tail == tail;
      ParsePartial(tail);
    } else {
      ParseFrames(packets[1..], tail);
      ParseStep(packets[0], Frames(packets[1..]) + tail);
      assert Frames(packets) + tail == Frame(packets[0]) + (Frames(packets[1..]) + tail);
      assert packets == [packets[0]] + packets[1..];
    }
  }

  lemma {:induction false} FramesInjective(a: seq<seq<Byte>>, b: seq<seq<Byte>>)
    requires Framable(a) && Framable(b) && Frames(a) == Frames(b)
    ensures a == b
  {
    ParseFrames(a, []);
    ParseFrames(b, []);
    assert Frames(a) + [] == Frames(a) && Frames(b) + [] == Frames(b);
  }

  lemma {:induction false} ParseOne(bytes: seq<Byte>)
    requires |bytes| >= 2 && |bytes| >= 2 + Length(bytes)
    ensures var n := Length(bytes);
      Parse(bytes) == ([bytes[2..2 + n]] + Parse(bytes[2 + n..]).0, Parse(bytes[2 + n..]).1)
  {
  }

  lemma {:induction false} ParseNone(bytes: seq<Byte>)
    requires |bytes| < 2 || |bytes| < 2 + Length(bytes)
    ensures Parse(bytes) == ([], bytes)
  {
  }

  lemma {:induction false} FramesOfMore(first: seq<Byte>, packets: seq<seq<Byte>>)
    requires |first| < 0x1_0000 && Framable(packets)
    ensures Framable([first] + packets) && Frames([first] + packets) == Frame(first) + Frames(packets)
  {
    assert ([first] + packets)[1..] == packets;
  }

  // The other way round: any byte stream is the frames of what the reader recovers, and a rest.
  lemma {:induction false} ParseCovers(bytes: seq<Byte>)
    ensures Framable(Parse(bytes).0) && Frames(Parse(bytes).0) + Parse(bytes).1 == bytes
    decreases |bytes|
  {
    hide Parse, Frame, Frames, Length, Framable;
    if |bytes| < 2 || |bytes| < 2 + Length(bytes) {
      ParseNone(bytes);
      FramesOfNone();
    } else {
      var first, rest := bytes[2..2 + Length(bytes)], bytes[2 + Length(bytes)..];
      ParseOne(bytes);
      ParseCovers(rest);
      FrameOfLength(bytes);
      FramesOfMore(first, Parse(rest).0);
      assert bytes == bytes[..2 + Length(bytes)] + rest;
      var frames, tail := Frames(Parse(rest).0), Parse(rest).1;
      assert Frame(first) + (frames + tail) == (Frame(first) + frames) + tail;
    }
  }

  lemma {:induction false} FramesOfNone()
    ensures Framable([]) && Frames([]) == []
  {
  }

  lemma {:induction false} FrameOfLength(bytes: seq<Byte>)
    requires |bytes| >= 2 && |bytes| >= 2 + Length(bytes)
    ensures Length(bytes) < 0x1_0000 && Frame(bytes[2..2 + Length(bytes)]) == bytes[..2 + Length(bytes)]
  {
  }

  lemma {:induction false} FramesAppend(packets: seq<seq<Byte>>, p: seq<Byte>)
    requires Framable(packets) && |p| < 0x1_0000
    ensures Frames(packets + [p]) == Frames(packets) + Frame(p)
    decreases |packets|
  {
    if packets == [] {
      assert Frames([p]) == Frame(p) + Frames([p][1..]);
    } else {
      assert (packets + [p])[1..] == packets[1..] + [p];
      FramesAppend(packets[1..], p);
    }
  }

  // ---------------------------------------------------------------- writers

  // `handle_tcp_write`: writes queued packets until one fails or the writer is cancelled between two.
  // Whatever happens, the reader recovers a prefix of the queue: all of it if nothing went wrong.
  method WriteQueue(stream: Stream, queue: seq<seq<Byte>>, cancelledAfter: nat) returns (count: nat, ok: bool)
    requires Framable(queue) && stream.emitted == []
    modifies stream
    ensures count <= |queue|
    ensures ok ==> count == if cancelledAfter < |queue| then cancelledAfter else |queue|
    ensures Parse(stream.emitted).0 == queue[..count]
    ensures Parse(stream.emitted).1 != [] ==> count < |queue| && CutShort(Parse(stream.emitted).1, Frame(queue[count]))
  {
    count, ok := 0, true;
    ghost var tail: seq<Byte> := [];
    while count < |queue| && count < cancelledAfter
      invariant ok && count <= |queue| && (count <= cancelledAfter)
      invariant stream.emitted == Frames(queue[..count])
    {
      var packet := EncodeTcp(queue[count]);
      ok := WriteEncodedPacket(stream, packet.value);
      if !ok {
        tail :| CutShort(tail, Frame(queue[count])) && stream.emitted == Frames(queue[..count]) + tail;
        break;
      }
      FramesAppend(queue[..count], queue[count]);
      assert queue[..count + 1] == queue[..count] + [queue[count]];
      count := count + 1;
    }
    assert Frames(queue[..count]) + [] == Frames(queue[..count]);
    ParseFrames(queue[..count], tail);
  }

  // ---------------------------------------------------------------- the direct sink

  // `DirectTcpSink`: writes that share one stream. A write that does not complete closes the sink, unless
  // its caller drops it: then the sink stays open.
  datatype SinkState = SinkState(cancelled: bool, emitted: seq<Byte>, accepted: seq<seq<Byte>>)

  datatype SinkLabel =
    | Accepts(data: seq<Byte>)
    | Fails(data: seq<Byte>, sent: nat)     // after this many bytes of its frame
    | Abandons(data: seq<Byte>, sent: nat)  // dropped by its caller after this many bytes of its frame
    | Closes

  const NewSink: SinkState := SinkState(false, [], [])

  predicate SinkEnabled(s: SinkState, l: SinkLabel) {
    l.Closes? || (!s.cancelled && |l.data| < 0x1_0000 && (l.Accepts? || l.sent < |Frame(l.data)|))
  }

  function SinkApply(s: SinkState, l: SinkLabel): SinkState
    requires SinkEnabled(s, l)
  {
    match l
    case Accepts(data) => s.(emitted := s.emitted + Frame(data), accepted := s.accepted + [data])
    case Fails(data, sent) => s.(emitted := s.emitted + Frame(data)[..sent], cancelled := true)
    case Abandons(data, sent) => s.(emitted := s.emitted + Frame(data)[..sent])
    case Closes => s.(cancelled := true)
  }

  ghost predicate SinkRun(s: SinkState, labels: seq<SinkLabel>, s': SinkState)
    decreases |labels|
  {
    if labels == [] then s' == s
    else SinkEnabled(s, labels[0]) && SinkRun(SinkApply(s, labels[0]), labels[1..], s')
  }

  lemma {:induction false} SinkRunMore(s: SinkState, labels: seq<SinkLabel>, mid: SinkState, l: SinkLabel)
    requires SinkRun(s, labels, mid) && SinkEnabled(mid, l)
    ensures SinkRun(s, labels + [l], SinkApply(mid, l))
    decreases |labels|
  {
    hide SinkApply, SinkEnabled;
    if labels == [] {
      assert labels + [l] == [l] && [l][1..] == [];
    } else {
      assert (labels + [l])[1..] == labels[1..] + [l];
      SinkRunMore(SinkApply(s, labels[0]), labels[1..], mid, l);
    }
  }

  // The bytes of writes that did not complete.
  function LeftBehind(labels: seq<SinkLabel>): nat {
    if labels == [] then 0
    else (if labels[0].Fails? || labels[0].Abandons? then labels[0].sent else 0) + LeftBehind(labels[1..])
  }

  lemma {:induction false} SinkBytes(s: SinkState, labels: seq<SinkLabel>, s': SinkState)
    requires SinkRun(s, labels, s') && Framable(s.accepted)
    ensures Framable(s'.accepted)
    ensures |s'.emitted| - |Frames(s'.accepted)| == |s.emitted| - |Frames(s.accepted)| + LeftBehind(labels)
    ensures s.emitted == Frames(s.accepted) && LeftBehind(labels) == 0 ==> s'.emitted == Frames(s'.accepted)
    decreases |labels|
  {
    hide Frame, Frames;
    if labels != [] {
      if labels[0].Accepts? { FramesAppend(s.accepted, labels[0].data); }
      SinkBytes(SinkApply(s, labels[0]), labels[1..], s');
    }
  }

  // The reader recovers exactly the accepted packets, with nothing left over, if and only if the writes
  // that did not complete emitted nothing.
  lemma {:induction false} SinkReaderExactly(labels: seq<SinkLabel>, s: SinkState)
    requires SinkRun(NewSink, labels, s)
    ensures Framable(s.accepted)
    ensures Parse(s.emitted) == (s.accepted, []) <==> LeftBehind(labels) == 0
  {
    hide Frame, Parse, SinkRun;
    SinkBytes(NewSink, labels, s);
    assert Frames(s.accepted) + [] == Frames(s.accepted);
    if LeftBehind(labels) == 0 { ParseFrames(s.accepted, []); }
    ParseCovers(s.emitted);
  }

  // No write was dropped by its caller after it had emitted something.
  ghost predicate NoneAbandoned(labels: seq<SinkLabel>) { forall l <- labels :: l.Abandons? ==> l.sent == 0 }

  // A sink that is open has emitted whole frames; a closed one may have ended with part of a frame.
  ghost predicate WholeFrames(s: SinkState) {
    && Framable(s.accepted)
    && exists tail :: Partial(tail) && s.emitted == Frames(s.accepted) + tail && (tail != [] ==> s.cancelled)
  }

  lemma {:induction false} SinkWhole(s: SinkState, labels: seq<SinkLabel>, s': SinkState)
    requires WholeFrames(s) && SinkRun(s, labels, s') && NoneAbandoned(labels)
    ensures WholeFrames(s')
    decreases |labels|
  {
    hide WholeFrames, Frame;
    if labels != [] {
      assert labels[0] in labels;
      StepWhole(s, labels[0]);
      SinkWhole(SinkApply(s, labels[0]), labels[1..], s');
    }
  }

  lemma {:induction false} StepWhole(s: SinkState, l: SinkLabel)
    requires WholeFrames(s) && SinkEnabled(s, l) && (l.Abandons? ==> l.sent == 0)
    ensures WholeFrames(SinkApply(s, l))
  {
    hide Frame, Frames;
    var s' := SinkApply(s, l);
    var tail :| Partial(tail) && s.emitted == Frames(s.accepted) + tail && (tail != [] ==> s.cancelled);
    if l.Accepts? {
      FramesAppend(s.accepted, l.data);
      assert Partial([]) && s'.emitted == Frames(s'.accepted) + [];
    } else if l.Fails? {
      var rest := Frame(l.data)[..l.sent];
      assert CutShort(rest, Frame(l.data));
      assert Partial(rest) && s'.emitted == Frames(s'.accepted) + rest;
    } else {
      assert s'.emitted == s.emitted && s'.accepted == s.accepted;
    }
  }

  // As long as no caller drops a write that has begun, the reader recovers exactly the packets whose
  // writes succeeded, and what is left over belongs to the write that closed the sink.
  lemma {:induction false} SinkReaderRecovers(labels: seq<SinkLabel>, s: SinkState)
    requires SinkRun(NewSink, labels, s) && NoneAbandoned(labels)
    ensures Parse(s.emitted).0 == s.accepted && (Parse(s.emitted).1 != [] ==> s.cancelled)
  {
    hide Frame, Parse, SinkRun, NoneAbandoned;
    assert Partial([]) && NewSink.emitted == Frames(NewSink.accepted) + [];
    SinkWhole(NewSink, labels, s);
    var tail :| Partial(tail) && s.emitted == Frames(s.accepted) + tail && (tail != [] ==> s.cancelled);
    ParseFrames(s.accepted, tail);
  }

  // A dropped write, and the next one that succeeds: the reader recovers that packet and nothing else if
  // and only if the dropped write had emitted nothing.
  lemma {:induction false} AbandonedWrite(
    labels: seq<SinkLabel>, s: SinkState, data: seq<Byte>, sent: nat, next: seq<Byte>)
    requires SinkRun(NewSink, labels, s) && LeftBehind(labels) == 0
    requires SinkEnabled(s, Abandons(data, sent)) && SinkEnabled(SinkApply(s, Abandons(data, sent)), Accepts(next))
    ensures Parse(s.emitted) == (s.accepted, [])
    ensures var s' := SinkApply(SinkApply(s, Abandons(data, sent)), Accepts(next));
      Parse(s'.emitted) == (s.accepted + [next], []) <==> sent == 0
  {
    hide Frame, Parse, SinkRun;
    var mid := SinkApply(s, Abandons(data, sent));
    SinkReaderExactly(labels, s);
    SinkRunMore(NewSink, labels, s, Abandons(data, sent));
    SinkRunMore(NewSink, labels + [Abandons(data, sent)], mid, Accepts(next));
    LeftBehindMore(labels, Abandons(data, sent));
    LeftBehindMore(labels + [Abandons(data, sent)], Accepts(next));
    SinkReaderExactly(labels + [Abandons(data, sent)] + [Accepts(next)], SinkApply(mid, Accepts(next)));
  }

  lemma {:induction false} LeftBehindMore(labels: seq<SinkLabel>, l: SinkLabel)
    ensures LeftBehind(labels + [l]) == LeftBehind(labels) + if l.Fails? || l.Abandons? then l.sent else 0
  {
    if labels == [] {
      assert labels + [l] == [l] && [l][1..] == [];
    } else {
      assert (labels + [l])[1..] == labels[1..] + [l];
      LeftBehindMore(labels[1..], l);
    }
  }

  // It happens: the reader gets a packet that nobody wrote, and not the one that was accepted.
  lemma {:induction false} GarbledPacket() returns (labels: seq<SinkLabel>, s: SinkState)
    ensures SinkRun(NewSink, labels, s) && s.accepted == [[9]] && Parse(s.emitted) == ([[0]], [1, 9])
  {
    var first, second := Abandons([7], 2), Accepts([9]);
    var s1 := SinkApply(NewSink, first);
    s, labels := SinkApply(s1, second), [first, second];
    assert s.emitted == [0, 1, 0, 1, 9] by {
      assert Frame([7])[..2] == [0, 1] && Frame([9]) == [0, 1, 9];
    }
    assert Parse(s.emitted) == ([[0]], [1, 9]) by { ParseGarbled(); }
    assert [second][1..] == [] && labels[1..] == [second];
    assert SinkRun(s1, [second], s);
  }

  lemma {:induction false} ParseGarbled()
    ensures Parse([0, 1, 0, 1, 9]) == ([[0]], [1, 9])
  {
    var bytes: seq<Byte>, rest: seq<Byte> := [0, 1, 0, 1, 9], [1, 9];
    assert Length(bytes) == 1 && bytes[2..2 + 1] == [0] && bytes[2 + 1..] == rest;
    ParseOne(bytes);
    ParseNone(rest);
    assert [bytes[2..2 + 1]] + [] == [bytes[2..2 + 1]];
  }

  class DirectSink {
    const stream: Stream
    var cancelled: bool
    ghost var accepted: seq<seq<Byte>>  // packets whose write returned success, oldest first
    ghost var labels: seq<SinkLabel>

    ghost function Now(): SinkState
      reads this, stream
    {
      SinkState(cancelled, stream.emitted, accepted)
    }

    // The fields are what a run from a new sink leads to.
    ghost predicate Valid()
      reads this, stream
    {
      SinkRun(NewSink, labels, Now())
    }

    constructor (stream: Stream)
      requires stream.emitted == []
      ensures Valid() && this.stream == stream && accepted == [] && labels == [] && !cancelled
    {
      this.stream, cancelled, accepted, labels := stream, false, [], [];
    }

    ghost method Step(before: SinkState, l: SinkLabel)
      requires SinkRun(NewSink, labels, before) && SinkEnabled(before, l) && Now() == SinkApply(before, l)
      modifies this`labels
      ensures Valid() && labels == old(labels) + [l]
    {
      SinkRunMore(NewSink, labels, before, l);
      labels := labels + [l];
    }

    method Close()
      requires Valid()
      modifies this`cancelled, this`labels
      ensures Valid() && cancelled && labels == old(labels) + [Closes]
    {
      ghost var before := Now();
      cancelled := true;
      Step(before, Closes);
    }

    // A closed sink, and a packet too long, write nothing; otherwise the packet is accepted, or its write
    // fails part way and closes the sink.
    method Write(data: seq<Byte>) returns (ok: bool)
      requires Valid()
      modifies this`cancelled, this`accepted, this`labels, stream
      ensures Valid()
      ensures ok ==> !old(cancelled) && |data| < 0x1_0000 && labels == old(labels) + [Accepts(data)]
      ensures old(cancelled) || |data| >= 0x1_0000 ==> !ok && labels == old(labels) && Now() == old(Now())
      ensures !ok && !old(cancelled) && |data| < 0x1_0000 ==>
        cancelled && |old(stream.emitted)| <= |stream.emitted| &&
        labels == old(labels) + [Fails(data, |stream.emitted| - |old(stream.emitted)|)]
    {
      hide SinkRun;
      if cancelled {
        return false;
      }
      var packet := EncodeTcp(data);
      if packet.None? {
        return false;
      }
      ghost var before := Now();
      ok := WriteEncodedPacket(stream, packet.value);
      if ok {
        accepted := accepted + [data];
        Step(before, Accepts(data));
      } else {
        ghost var sent :| CutShort(sent, Frame(data)) && stream.emitted == before.emitted + sent;
        assert sent == Frame(data)[..|sent|];
        cancelled := true;
        Step(before, Fails(data, |sent|));
      }
    }

    // A write that its caller drops at an await: the stream has taken part of the frame, or none of it.
    method WriteDropped(data: seq<Byte>)
      requires Valid()
      modifies this`labels, stream
      ensures Valid()
      ensures old(cancelled) || |data| >= 0x1_0000 ==> labels == old(labels) && Now() == old(Now())
      ensures !old(cancelled) && |data| < 0x1_0000 ==>
        |old(stream.emitted)| <= |stream.emitted| &&
        labels == old(labels) + [Abandons(data, |stream.emitted| - |old(stream.emitted)|)]
    {
      hide SinkRun;
      if cancelled {
        return;
      }
      var packet := EncodeTcp(data);
      if packet.None? {
        return;
      }
      ghost var before := Now();
      var sent := stream.TakePart(packet.value.Bytes());
      Step(before, Abandons(data, sent));
    }

    // What the reader recovers, and when that is exactly the accepted packets.
    lemma {:induction false} ReaderRecovers()
      requires Valid()
      ensures Parse(stream.emitted) == (accepted, []) <==> LeftBehind(labels) == 0
      ensures NoneAbandoned(labels) ==>
        Parse(stream.emitted).0 == accepted && (Parse(stream.emitted).1 != [] ==> cancelled)
    {
      hide SinkRun, Parse;
      SinkReaderExactly(labels, Now());
      if NoneAbandoned(labels) { SinkReaderRecovers(labels, Now()); }
    }
  }
}
