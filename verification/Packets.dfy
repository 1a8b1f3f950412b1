/**
 Packet framing and parsing over a byte stream that arrives in arbitrary
 pieces.
 */
module Packets {
  import opened Primitives
  import opened Bytes32
  import opened Pieces

  const HEADER_SIZE := 9
  const MAX_MESSAGE := 8_000_000

  datatype Header = Header(kind: Byte, size: nat)

  /** What the parser emits.  Decoding of payloads is a parameter: it gives a
      packet or an error. */
  datatype Event<+P> = Packet(packet: P) | BadMagic | TooLarge | BadPayload

  datatype ParserState = ParserState(buffered: Bytes, waiting: nat, header: Option<Header>) {
    predicate Valid() {
      if header.None? then waiting == HEADER_SIZE
      else waiting == header.value.size <= MAX_MESSAGE
    }
  }

  const START := ParserState([], HEADER_SIZE, None)

  /** `parse` on one complete chunk. */
  function Parse<P>(magic: nat, decode: (Byte, Bytes) -> Option<P>, header: Option<Header>, chunk: Bytes):
      (r: (nat, Option<Header>, seq<Event<P>>))
    requires header.None? ==> |chunk| == HEADER_SIZE
    ensures ParserState([], r.0, r.1).Valid()
    ensures header.Some? ==> r.1.None?
  {
    if header.None? then
      var kind, size := chunk[4], ReadU32(chunk[5..]);
      if ReadU32(chunk) != magic then (HEADER_SIZE, None, [BadMagic])
      else if size > MAX_MESSAGE then (HEADER_SIZE, None, [TooLarge])
      else (size, Some(Header(kind, size)), [])
    else
      match decode(header.value.kind, chunk)
      case None => (HEADER_SIZE, None, [BadPayload])
      case Some(p) => (HEADER_SIZE, None, [Packet(p)])
  }

  /** Everything that can be parsed from what is buffered. */
  function Drain<P>(magic: nat, decode: (Byte, Bytes) -> Option<P>, s: ParserState):
      (ParserState, seq<Event<P>>)
    requires s.Valid()
    decreases |s.buffered|, if s.header.Some? then 1 else 0
  {
    if |s.buffered| < s.waiting then (s, [])
    else
      var (waiting, header, events) := Parse(magic, decode, s.header, s.buffered[..s.waiting]);
      var (end, more) := Drain(magic, decode, ParserState(s.buffered[s.waiting..], waiting, header));
      (end, events + more)
  }

  function Push(s: ParserState, data: Bytes): ParserState {
    s.(buffered := s.buffered + data)
  }

  lemma {:induction false} DrainValid<P>(magic: nat, decode: (Byte, Bytes) -> Option<P>, s: ParserState)
    requires s.Valid()
    ensures Drain(magic, decode, s).0.Valid()
    ensures |Drain(magic, decode, s).0.buffered| < Drain(magic, decode, s).0.waiting
    decreases |s.buffered|, if s.header.Some? then 1 else 0
  {
    if |s.buffered| >= s.waiting {
      var (waiting, header, events) := Parse(magic, decode, s.header, s.buffered[..s.waiting]);
      DrainValid(magic, decode, ParserState(s.buffered[s.waiting..], waiting, header));
    }
  }

  /** Draining early changes nothing: what is parsed from a prefix of the stream
      is parsed the same way when the rest is already there. */
  lemma {:induction false} DrainSplit<P>(magic: nat, decode: (Byte, Bytes) -> Option<P>, s: ParserState,
                                         data: Bytes)
    requires s.Valid()
    ensures Drain(magic, decode, s).0.Valid()
    ensures var (mid, first) := Drain(magic, decode, s);
            var (end, second) := Drain(magic, decode, Push(mid, data));
            Drain(magic, decode, Push(s, data)) == (end, first + second)
    decreases |s.buffered|, if s.header.Some? then 1 else 0
  {
    hide Parse;
    DrainValid(magic, decode, s);
    if |s.buffered| < s.waiting {
      var second := Drain(magic, decode, Push(s, data)).1;
      assert [] + second == second;
    } else {
      var chunk := s.buffered[..s.waiting];
      var (waiting, header, events) := Parse(magic, decode, s.header, chunk);
      var next := ParserState(s.buffered[s.waiting..], waiting, header);
      DrainSplit(magic, decode, next, data);
      assert Push(s, data).buffered[..s.waiting] == chunk;
      assert Push(s, data).buffered[s.waiting..] == Push(next, data).buffered;
      var (mid, rest) := Drain(magic, decode, next);
      Associate(events, rest, Drain(magic, decode, Push(mid, data)).1);
    }
  }

  lemma Associate<T>(a: seq<T>, b: seq<T>, c: seq<T>)
    ensures a + (b + c) == a + b + c
  {
  }

  /** Feeding pieces one after the other. */
  function FeedAll<P>(magic: nat, decode: (Byte, Bytes) -> Option<P>, s: ParserState, chunks: seq<Bytes>):
      (ParserState, seq<Event<P>>)
    requires s.Valid()
    decreases |chunks|
  {
    if chunks == [] then (s, [])
    else
      DrainValid(magic, decode, Push(s, chunks[0]));
      var (mid, first) := Drain(magic, decode, Push(s, chunks[0]));
      var (end, rest) := FeedAll(magic, decode, mid, chunks[1..]);
      (end, first + rest)
  }

  /** Only the concatenation of the pieces matters. */
  lemma {:induction false} ChunkingIrrelevant<P>(magic: nat, decode: (Byte, Bytes) -> Option<P>,
                                                 s: ParserState, chunks: seq<Bytes>)
    requires s.Valid() && |s.buffered| < s.waiting
    ensures FeedAll(magic, decode, s, chunks) == Drain(magic, decode, Push(s, Concat(chunks)))
    decreases |chunks|
  {
    if chunks == [] {
      assert Push(s, []) == s;
    } else {
      var one := Push(s, chunks[0]);
      DrainValid(magic, decode, one);
      var (mid, first) := Drain(magic, decode, one);
      ChunkingIrrelevant(magic, decode, mid, chunks[1..]);
      DrainSplit(magic, decode, one, Concat(chunks[1..]));
      assert Push(one, Concat(chunks[1..])) == Push(s, Concat(chunks));
    }
  }

  // ---------------------------------------------------------------------
  // Framing
  // ---------------------------------------------------------------------

  datatype Message = Message(kind: Byte, payload: Bytes)

  function Frame(magic: nat, m: Message): Bytes {
    U32(magic) + [m.kind] + U32(|m.payload|) + m.payload
  }

  function FrameAll(magic: nat, messages: seq<Message>): Bytes {
    if messages == [] then [] else Frame(magic, messages[0]) + FrameAll(magic, messages[1..])
  }

  function Decoded<P>(decode: (Byte, Bytes) -> Option<P>, m: Message): Event<P> {
    match decode(m.kind, m.payload)
    case None => BadPayload
    case Some(p) => Packet(p)
  }

  function DecodedAll<P>(decode: (Byte, Bytes) -> Option<P>, messages: seq<Message>): seq<Event<P>> {
    if messages == [] then [] else [Decoded(decode, messages[0])] + DecodedAll(decode, messages[1..])
  }

  lemma DrainFrame<P>(magic: nat, decode: (Byte, Bytes) -> Option<P>, m: Message, rest: Bytes)
    requires magic < U32_LIMIT && |m.payload| <= MAX_MESSAGE
    ensures var (end, more) := Drain(magic, decode, ParserState(rest, HEADER_SIZE, None));
            Drain(magic, decode, ParserState(Frame(magic, m) + rest, HEADER_SIZE, None))
            == (end, [Decoded(decode, m)] + more)
  {
    var s := ParserState(Frame(magic, m) + rest, HEADER_SIZE, None);
    var header, body := s.buffered[..HEADER_SIZE], s.buffered[HEADER_SIZE..];
    U32RoundTrip(magic, [m.kind] + U32(|m.payload|));
    U32RoundTrip(|m.payload|, []);
    assert header == U32(magic) + ([m.kind] + U32(|m.payload|));
    assert header[5..] == U32(|m.payload|) + [];
    assert body == m.payload + rest;
    var t := ParserState(body, |m.payload|, Some(Header(m.kind, |m.payload|)));
    assert body[..|m.payload|] == m.payload && body[|m.payload|..] == rest;
    var (end, more) := Drain(magic, decode, ParserState(rest, HEADER_SIZE, None));
    assert Drain(magic, decode, t) == (end, [Decoded(decode, m)] + more);
    assert [] + ([Decoded(decode, m)] + more) == [Decoded(decode, m)] + more;
  }

  /** Framing any messages and parsing the stream, cut anywhere, gives the
      messages back in order and leaves nothing over. */
  lemma {:induction false} FramesRoundTrip<P>(magic: nat, decode: (Byte, Bytes) -> Option<P>,
                                              messages: seq<Message>, chunks: seq<Bytes>)
    requires magic < U32_LIMIT
    requires forall m :: m in messages ==> |m.payload| <= MAX_MESSAGE
    requires Concat(chunks) == FrameAll(magic, messages)
    ensures FeedAll(magic, decode, START, chunks) == (START, DecodedAll(decode, messages))
  {
    ChunkingIrrelevant(magic, decode, START, chunks);
    assert Push(START, Concat(chunks)).buffered == FrameAll(magic, messages);
    DrainFrames(magic, decode, messages);
  }

  lemma {:induction false} DrainFrames<P>(magic: nat, decode: (Byte, Bytes) -> Option<P>,
                                          messages: seq<Message>)
    requires magic < U32_LIMIT
    requires forall m :: m in messages ==> |m.payload| <= MAX_MESSAGE
    ensures Drain(magic, decode, ParserState(FrameAll(magic, messages), HEADER_SIZE, None))
            == (START, DecodedAll(decode, messages))
  {
    if messages != [] {
      DrainFrame(magic, decode, messages[0], FrameAll(magic, messages[1..]));
      DrainFrames(magic, decode, messages[1..]);
    }
  }

  // ---------------------------------------------------------------------
  // The parser and the framer
  // ---------------------------------------------------------------------

  class Parser<P> {
    const magic: nat
    const decode: (Byte, Bytes) -> Option<P>
    var pending: seq<Bytes>
    var total: nat
    var waiting: nat
    var header: Option<Header>
    var events: seq<Event<P>>

    ghost function State(): ParserState
      reads this
    {
      ParserState(Concat(pending), waiting, header)
    }

    ghost predicate Valid()
      reads this
    {
      total == |Concat(pending)| && State().Valid()
    }

    constructor (magic: nat, decode: (Byte, Bytes) -> Option<P>)
      ensures Valid() && State() == START && events == []
      ensures this.magic == magic && this.decode == decode
    {
      this.magic, this.decode := magic, decode;
      pending, total, waiting, header, events := [], 0, HEADER_SIZE, None, [];
    }

    /** Feeding one piece does what draining says. */
    method Feed(data: Bytes)
      requires Valid()
      modifies this
      ensures Valid() && total < waiting
      ensures (State(), events)
              == (Drain(magic, decode, Push(old(State()), data)).0,
                  old(events) + Drain(magic, decode, Push(old(State()), data)).1)
    {
      hide Parse, ReadU32;
      ghost var start := Push(State(), data);
      ConcatSnoc(pending, data);
      total := total + |data|;
      pending := pending + [data];
      assert State() == start && events + [] == events;
      ghost var seen: seq<Event<P>> := [];
      assert seen + Drain(magic, decode, start).1 == Drain(magic, decode, start).1;
      while total >= waiting
        invariant Valid() && State().Valid() && events == old(events) + seen
        invariant Drain(magic, decode, start)
                  == (Drain(magic, decode, State()).0, seen + Drain(magic, decode, State()).1)
        decreases total, if header.Some? then 1 else 0
      {
        ghost var before := State();
        ghost var (waiting', header', more) := Parse(magic, decode, header, before.buffered[..waiting]);
        var size := waiting;
        var chunk, left := Take(pending, size);
        pending, total := left, total - size;
        ghost var next := ParserState(before.buffered[size..], waiting', header');
        Associate(seen, more, Drain(magic, decode, next).1);
        Associate(old(events), seen, more);
        ParseChunk(chunk[..]);
        assert State() == next;
        seen := seen + more;
      }
      assert Drain(magic, decode, State()) == (State(), []);
      assert seen + [] == seen;
    }

    /** One complete chunk: a header or a payload. */
    method ParseChunk(data: Bytes)
      requires State().Valid() && |data| == waiting
      modifies this`waiting, this`header, this`events
      ensures (waiting, header, events)
              == (Parse(magic, decode, old(header), data).0, Parse(magic, decode, old(header), data).1,
                  old(events) + Parse(magic, decode, old(header), data).2)
    {
      if header.None? {
        header := ParseHeader(data);
        return;
      }
      var packet := decode(header.value.kind, data);
      waiting := HEADER_SIZE;
      header := None;
      if packet.None? {
        events := events + [BadPayload];
        return;
      }
      events := events + [Packet(packet.value)];
    }

    method ParseHeader(data: Bytes) returns (h: Option<Header>)
      requires waiting == |data| == HEADER_SIZE
      modifies this`waiting, this`events
      ensures (waiting, h, events)
              == (Parse(magic, decode, None, data).0, Parse(magic, decode, None, data).1,
                  old(events) + Parse(magic, decode, None, data).2)
    {
      if ReadU32(data) != magic {
        events := events + [BadMagic];
        return None;
      }
      var kind, size := data[4], ReadU32(data[5..]);
      if size > MAX_MESSAGE {
        waiting := HEADER_SIZE;
        events := events + [TooLarge];
        return None;
      }
      waiting := size;
      assert events == events + [];
      return Some(Header(kind, size));
    }
  }

  /** Header and payload are written into one buffer. */
  method FramePacket(magic: nat, kind: Byte, payload: Bytes) returns (msg: array<Byte>)
    requires magic < U32_LIMIT && |payload| < U32_LIMIT
    ensures fresh(msg) && msg[..] == Frame(magic, Message(kind, payload))
  {
    msg := new Byte[HEADER_SIZE + |payload|](_ => 0);
    WriteU32(msg, 0, magic);
    msg[4] := kind;
    WriteU32(msg, 5, |payload|);
    forall i | 0 <= i < |payload| { msg[HEADER_SIZE + i] := payload[i]; }
    assert msg[..] == msg[0..4] + [msg[4]] + msg[5..9] + msg[9..];
  }

  method WriteU32(msg: array<Byte>, off: nat, n: nat)
    requires off + 4 <= msg.Length
    modifies msg
    ensures msg[off..off + 4] == U32(n)
    ensures forall i :: 0 <= i < msg.Length && !(off <= i < off + 4) ==> msg[i] == old(msg[i])
  {
    msg[off], msg[off + 1], msg[off + 2], msg[off + 3] :=
      n % 256, n / 0x100 % 256, n / 0x1_0000 % 256, n / 0x100_0000 % 256;
  }
}
