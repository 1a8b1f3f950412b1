/**
 The encrypted stream over a connected pair of sockets, as a function of what
 is read and written, and what two honest peers deliver to each other in any
 run.
 */
module BrontideRuns {
  import opened Primitives
  import opened Bytes32
  import opened Pieces
  import opened Brontide

  const HEADER_SIZE := 20
  const MAX_MESSAGE := 8_000_009

  datatype Act = ActNone | ActOne | ActTwo | ActThree | ActDone

  datatype Event = Connected | Data(payload: Bytes) | Failed

  /** One end.  `input` is read but not yet parsed, `queue` waits for the end of
      the handshake, `sent` is everything written to the socket so far. */
  datatype Stream = Stream(h: Handshake, ephemeral: Hash, act: Act, input: Bytes, waiting: nat, hasSize: bool,
                           queue: seq<Bytes>, sent: Bytes, events: seq<Event>)
  {
    predicate Valid() {
      && (act != ActNone ==> waiting > 0)
      && (act == ActOne ==> waiting == ACT_SIZE && !hasSize)
      && (act == ActTwo ==> waiting == ACT_SIZE && !hasSize)
      && (act == ActThree ==> waiting == ACT_THREE_SIZE && !hasSize)
      && (act == ActDone ==> if hasSize then 16 <= waiting <= MAX_MESSAGE + 16 else waiting == HEADER_SIZE)
    }
  }

  function Destroyed(s: Stream): Stream {
    s.(act := ActNone, input := [], waiting := 0, hasSize := false, queue := [], events := s.events + [Failed])
  }

  function SealFrame(suite: Suite, c: Cipher, m: Bytes): (Cipher, Bytes) {
    var (size, tag1) := suite.Seal(c.key, Iv(c.nonce), U32(|m|), []);
    var c1 := Next(suite, c);
    var (body, tag2) := suite.Seal(c1.key, Iv(c1.nonce), m, []);
    (Next(suite, c1), size + tag1 + body + tag2)
  }

  function SealAll(suite: Suite, c: Cipher, messages: seq<Bytes>): (Cipher, Bytes)
    decreases |messages|
  {
    if messages == [] then (c, [])
    else
      var (c1, frame) := SealFrame(suite, c, messages[0]);
      var (end, rest) := SealAll(suite, c1, messages[1..]);
      (end, frame + rest)
  }

  function Send(suite: Suite, s: Stream, m: Bytes): Stream {
    var (c, frame) := SealFrame(suite, s.h.send, m);
    s.(h := s.h.(send := c), sent := s.sent + frame)
  }

  function Write(suite: Suite, s: Stream, m: Bytes): Stream {
    if s.act == ActNone then s
    else if s.act != ActDone then s.(queue := s.queue + [m])
    else Send(suite, s, m)
  }

  function SendAll(suite: Suite, s: Stream, messages: seq<Bytes>): Stream
    decreases |messages|
  {
    if messages == [] then s else SendAll(suite, Send(suite, s, messages[0]), messages[1..])
  }

  /** The handshake is over: what was written meanwhile goes out in order. */
  function Unleash(suite: Suite, s: Stream): Stream {
    var done := s.(act := ActDone, waiting := HEADER_SIZE);
    SendAll(suite, done, s.queue).(queue := [], events := s.events + [Connected])
  }

  function Start(suite: Suite, s: Stream): Stream {
    if !s.h.initiator then s.(act := ActOne, waiting := ACT_SIZE)
    else
      match GenActOne(suite, s.h, s.ephemeral)
      case None => Destroyed(s)
      case Some(r) => s.(h := r.0, act := ActTwo, waiting := ACT_SIZE, sent := s.sent + r.1)
  }

  function ParseHandshake(suite: Suite, s: Stream, chunk: Bytes): Stream {
    if s.act == ActOne && !s.h.initiator then
      match RecvActOne(suite, s.h, chunk)
      case None => Destroyed(s)
      case Some(h) =>
        match GenActTwo(suite, h, s.ephemeral)
        case None => Destroyed(s)
        case Some(r) => s.(h := r.0, act := ActThree, waiting := ACT_THREE_SIZE, sent := s.sent + r.1)
    else if s.act == ActTwo && s.h.initiator then
      match RecvActTwo(suite, s.h, chunk)
      case None => Destroyed(s)
      case Some(h) =>
        match GenActThree(suite, h)
        case None => Destroyed(s)
        case Some(r) => Unleash(suite, s.(h := r.0, sent := s.sent + r.1))
    else if s.act == ActThree && !s.h.initiator then
      match RecvActThree(suite, s.h, chunk)
      case None => Destroyed(s)
      case Some(h) => Unleash(suite, s.(h := h))
    else Destroyed(s)
  }

  function ParseFrame(suite: Suite, s: Stream, chunk: Bytes): Stream
    requires |chunk| == s.waiting >= 16
    requires !s.hasSize ==> s.waiting == HEADER_SIZE
  {
    var c := s.h.recv;
    var n := s.waiting - 16;
    match suite.Open(c.key, Iv(c.nonce), chunk[..n], chunk[n..], [])
    case None => Destroyed(s)
    case Some(plain) =>
      var t := s.(h := s.h.(recv := Next(suite, c)));
      if s.hasSize then t.(hasSize := false, waiting := HEADER_SIZE, events := s.events + [Data(plain)])
      else if |plain| < 4 || ReadU32(plain) > MAX_MESSAGE then Destroyed(t)
      else t.(hasSize := true, waiting := ReadU32(plain) + 16)
  }

  function Parse(suite: Suite, s: Stream, chunk: Bytes): (t: Stream)
    requires s.Valid() && s.act != ActNone && |chunk| == s.waiting
  {
    if s.act == ActDone then ParseFrame(suite, s, chunk) else ParseHandshake(suite, s, chunk)
  }

  /** One complete chunk off the front of the input. */
  function Step(suite: Suite, s: Stream): Stream
    requires s.Valid() && s.act != ActNone && s.waiting <= |s.input|
  {
    Parse(suite, s.(input := s.input[s.waiting..]), s.input[..s.waiting])
  }

  lemma {:induction false} SendAllFrame(suite: Suite, s: Stream, messages: seq<Bytes>)
    ensures var t := SendAll(suite, s, messages);
            t == s.(h := s.h.(send := t.h.send), sent := t.sent)
            && t.h.send == SealAll(suite, s.h.send, messages).0
            && t.sent == s.sent + SealAll(suite, s.h.send, messages).1
    decreases |messages|
  {
    if messages != [] {
      SendAllFrame(suite, Send(suite, s, messages[0]), messages[1..]);
    }
  }

  lemma UnleashValid(suite: Suite, s: Stream)
    requires !s.hasSize
    ensures Unleash(suite, s).Valid() && Unleash(suite, s).input == s.input
  {
    hide Send;
    SendAllFrame(suite, s.(act := ActDone, waiting := HEADER_SIZE), s.queue);
  }

  lemma ParseValid(suite: Suite, s: Stream, chunk: Bytes)
    requires s.Valid() && s.act != ActNone && |chunk| == s.waiting
    ensures Parse(suite, s, chunk).Valid() && |Parse(suite, s, chunk).input| <= |s.input|
  {
    hide GenActOne, GenActTwo, GenActThree, RecvActOne, RecvActTwo, RecvActThree, Unleash, Next, Iv;
    if s.act == ActTwo && RecvActTwo(suite, s.h, chunk).Some? {
      var h := RecvActTwo(suite, s.h, chunk).value;
      if GenActThree(suite, h).Some? {
        var r := GenActThree(suite, h).value;
        UnleashValid(suite, s.(h := r.0, sent := s.sent + r.1));
      }
    } else if s.act == ActThree && RecvActThree(suite, s.h, chunk).Some? {
      UnleashValid(suite, s.(h := RecvActThree(suite, s.h, chunk).value));
    }
  }

  lemma StepShrinks(suite: Suite, s: Stream)
    requires s.Valid() && s.act != ActNone && s.waiting <= |s.input|
    ensures Step(suite, s).Valid() && |Step(suite, s).input| < |s.input|
  {
    hide Parse;
    ParseValid(suite, s.(input := s.input[s.waiting..]), s.input[..s.waiting]);
  }

  function Drain(suite: Suite, s: Stream): Stream
    requires s.Valid()
    decreases |s.input|
  {
    if s.act == ActNone || |s.input| < s.waiting then s
    else
      StepShrinks(suite, s);
      Drain(suite, Step(suite, s))
  }

  function Feed(suite: Suite, s: Stream, data: Bytes): Stream
    requires s.Valid()
  {
    if s.act == ActNone then s else Drain(suite, s.(input := s.input + data))
  }

  // ---------------------------------------------------------------------
  // Only the bytes matter
  // ---------------------------------------------------------------------

  /** What arrives behind a chunk does not change how the chunk is parsed; a
      destroyed stream drops it. */
  lemma ParseIgnoresRest(suite: Suite, s: Stream, chunk: Bytes, rest: Bytes)
    requires s.Valid() && s.act != ActNone && |chunk| == s.waiting
    ensures var t := Parse(suite, s, chunk);
            Parse(suite, s.(input := rest), chunk)
            == if t.act == ActNone then t else t.(input := rest)
    ensures Parse(suite, s, chunk).act != ActNone ==> Parse(suite, s, chunk).input == s.input
  {
    hide GenActOne, GenActTwo, GenActThree, RecvActOne, RecvActTwo, RecvActThree, Unleash, Next, Iv;
    if s.act == ActTwo && RecvActTwo(suite, s.h, chunk).Some? {
      var h := RecvActTwo(suite, s.h, chunk).value;
      if GenActThree(suite, h).Some? {
        var r := GenActThree(suite, h).value;
        UnleashIgnoresRest(suite, s.(h := r.0, sent := s.sent + r.1), rest);
      }
    } else if s.act == ActThree && RecvActThree(suite, s.h, chunk).Some? {
      UnleashIgnoresRest(suite, s.(h := RecvActThree(suite, s.h, chunk).value), rest);
    }
  }

  lemma UnleashIgnoresRest(suite: Suite, s: Stream, rest: Bytes)
    ensures Unleash(suite, s.(input := rest)) == Unleash(suite, s).(input := rest)
    ensures Unleash(suite, s).input == s.input && Unleash(suite, s).act == ActDone
  {
    hide SealAll, Send;
    SendAllFrame(suite, s.(act := ActDone, waiting := HEADER_SIZE), s.queue);
    SendAllFrame(suite, s.(act := ActDone, waiting := HEADER_SIZE, input := rest), s.queue);
  }

  /** Draining early changes nothing. */
  lemma {:induction false} DrainSplit(suite: Suite, s: Stream, data: Bytes)
    requires s.Valid() && s.act != ActNone
    ensures Drain(suite, s).Valid()
    ensures Feed(suite, Drain(suite, s), data) == Drain(suite, s.(input := s.input + data))
    decreases |s.input|
  {
    hide Parse, Stream.Valid;
    var both := s.(input := s.input + data);
    StillValid(s, both.input);
    if s.waiting <= |s.input| {
      var t := Step(suite, s);
      StepShrinks(suite, s);
      var chunk, left := s.input[..s.waiting], s.input[s.waiting..];
      assert both.input[..s.waiting] == chunk && both.input[s.waiting..] == left + data;
      StillValid(s, left);
      ParseIgnoresRest(suite, s.(input := left), chunk, left + data);
      if t.act != ActNone {
        DrainSplit(suite, t, data);
      }
    }
  }

  lemma StillValid(s: Stream, input: Bytes)
    requires s.Valid()
    ensures s.(input := input).Valid()
  {
  }

  function FeedAll(suite: Suite, s: Stream, chunks: seq<Bytes>): Stream
    requires s.Valid()
    decreases |chunks|
  {
    if chunks == [] then s
    else
      FeedValid(suite, s, chunks[0]);
      FeedAll(suite, Feed(suite, s, chunks[0]), chunks[1..])
  }

  lemma FeedValid(suite: Suite, s: Stream, data: Bytes)
    requires s.Valid()
    ensures Feed(suite, s, data).Valid()
  {
    if s.act != ActNone {
      DrainSplit(suite, s.(input := s.input + data), []);
    }
  }

  /** What a stream does depends on the bytes it reads and not on how they are
      cut: for all bytes, also from a dishonest peer. */
  lemma {:induction false} ChunkingIrrelevant(suite: Suite, s: Stream, chunks: seq<Bytes>)
    requires s.Valid() && Drain(suite, s) == s
    ensures FeedAll(suite, s, chunks) == Feed(suite, s, Concat(chunks))
    decreases |chunks|
  {
    hide Drain, Stream.Valid;
    if chunks == [] {
      assert s.input + [] == s.input;
    } else if s.act == ActNone {
      ChunkingIrrelevant(suite, s, chunks[1..]);
    } else {
      FeedTwice(suite, s, chunks[0], Concat(chunks[1..]));
      StillValid(s, s.input + chunks[0]);
      DrainDrained(suite, s.(input := s.input + chunks[0]));
      ChunkingIrrelevant(suite, Feed(suite, s, chunks[0]), chunks[1..]);
    }
  }

  lemma FeedTwice(suite: Suite, s: Stream, first: Bytes, second: Bytes)
    requires s.Valid() && s.act != ActNone
    ensures Feed(suite, s, first).Valid()
    ensures Feed(suite, Feed(suite, s, first), second) == Feed(suite, s, first + second)
  {
    hide Drain, Stream.Valid;
    var one := s.(input := s.input + first);
    StillValid(s, one.input);
    DrainSplit(suite, one, second);
    assert one.input + second == s.input + (first + second);
  }

  lemma DrainDrained(suite: Suite, s: Stream)
    requires s.Valid()
    ensures Drain(suite, s).Valid() && Drain(suite, Drain(suite, s)) == Drain(suite, s)
    ensures Drain(suite, s).act != ActNone ==> |Drain(suite, s).input| < Drain(suite, s).waiting
    decreases |s.input|
  {
    hide Step;
    if s.act != ActNone && s.waiting <= |s.input| {
      StepShrinks(suite, s);
      DrainDrained(suite, Step(suite, s));
    }
  }

  // ---------------------------------------------------------------------
  // Two honest peers
  // ---------------------------------------------------------------------

  /** The initiator `a` and the responder `b`; how much of what each has sent has
      reached the other; and what each was asked to send once it had started. */
  datatype Run = Run(a: Stream, b: Stream, atA: nat, atB: nat, wroteA: seq<Bytes>, wroteB: seq<Bytes>)
  {
    predicate Valid() {
      a.Valid() && b.Valid() && atA <= |b.sent| && atB <= |a.sent|
    }

    /** Everything sent to `b` that it has not parsed yet. */
    function ComingB(): Bytes
      requires Valid()
    {
      b.input + a.sent[atB..]
    }

    function ComingA(): Bytes
      requires Valid()
    {
      a.input + b.sent[atA..]
    }
  }

  /** What can happen next: the connection opens, somebody writes, or some of
      the bytes under way arrive. */
  datatype Move = OpenA | WriteA(m: Bytes) | WriteB(m: Bytes) | ToA(n: nat) | ToB(n: nat)

  predicate Enabled(r: Run, move: Move)
    requires r.Valid()
  {
    match move
    case OpenA => r.a.act == ActNone && r.a.sent == [] && r.a.events == []
    case WriteA(m) => |m| <= MAX_MESSAGE
    case WriteB(m) => |m| <= MAX_MESSAGE
    case ToA(n) => r.atA + n <= |r.b.sent|
    case ToB(n) => r.atB + n <= |r.a.sent|
  }

  function Apply(suite: Suite, r: Run, move: Move): Run
    requires r.Valid() && Enabled(r, move)
  {
    match move
    case OpenA => r.(a := Start(suite, r.a))
    case WriteA(m) =>
      r.(a := Write(suite, r.a, m), wroteA := if r.a.act == ActNone then r.wroteA else r.wroteA + [m])
    case WriteB(m) =>
      r.(b := Write(suite, r.b, m), wroteB := if r.b.act == ActNone then r.wroteB else r.wroteB + [m])
    case ToA(n) => r.(a := Feed(suite, r.a, r.b.sent[r.atA..r.atA + n]), atA := r.atA + n)
    case ToB(n) => r.(b := Feed(suite, r.b, r.a.sent[r.atB..r.atB + n]), atB := r.atB + n)
  }

  function Idle(h: Handshake, ephemeral: Hash): Stream {
    Stream(h, ephemeral, ActNone, [], 0, false, [], [], [])
  }

  function Begin(suite: Suite, keys: Keys): Run {
    var i0 := Init(suite, true, keys.initiatorStatic, suite.Public(keys.responderStatic));
    var r0 := Init(suite, false, keys.responderStatic, ZERO_POINT);
    Run(Idle(i0, keys.initiatorEphemeral), Start(suite, Idle(r0, keys.responderEphemeral)), 0, 0, [], [])
  }

  function Datas(messages: seq<Bytes>): seq<Event> {
    seq(|messages|, i requires 0 <= i < |messages| => Data(messages[i]))
  }

  /** Header and body of one frame, as they lie in the stream. */
  function HeaderOf(suite: Suite, c: Cipher, m: Bytes): Bytes {
    var (size, tag) := suite.Seal(c.key, Iv(c.nonce), U32(|m|), []);
    size + tag
  }

  function BodyOf(suite: Suite, c: Cipher, m: Bytes): Bytes {
    var c1 := Next(suite, c);
    var (body, tag) := suite.Seal(c1.key, Iv(c1.nonce), m, []);
    body + tag
  }

  /** One direction once both ends are ready: `dst` has delivered the first k
      messages and holds or awaits exactly the frames of the others. */
  ghost predicate Flow(suite: Suite, first: Cipher, wrote: seq<Bytes>, now: Cipher, dst: Stream, coming: Bytes) {
    var k := |dst.events| - 1;
    && dst.act == ActDone && dst.queue == []
    && 0 <= k <= |wrote| && dst.events == [Connected] + Datas(wrote[..k])
    && now == SealAll(suite, first, wrote).0
    && var c := SealAll(suite, first, wrote[..k]).0;
       if !dst.hasSize then
         dst.h.recv == c && coming == SealAll(suite, c, wrote[k..]).1
       else
         && k < |wrote| && dst.h.recv == Next(suite, c) && dst.waiting == |wrote[k]| + 16
         && coming == BodyOf(suite, c, wrote[k])
                      + SealAll(suite, SealFrame(suite, c, wrote[k]).0, wrote[k + 1..]).1
  }

  lemma {:induction false} SealAllSnoc(suite: Suite, c: Cipher, messages: seq<Bytes>, m: Bytes)
    ensures var (c1, bytes) := SealAll(suite, c, messages);
            var (end, frame) := SealFrame(suite, c1, m);
            SealAll(suite, c, messages + [m]) == (end, bytes + frame)
    decreases |messages|
  {
    hide SealFrame;
    if messages == [] {
      var frame := SealFrame(suite, c, m).1;
      assert [m][1..] == [] && ([] + [m]) == [m] && frame + [] == frame && [] + frame == frame;
    } else {
      var (c0, frame0) := SealFrame(suite, c, messages[0]);
      SealAllSnoc(suite, c0, messages[1..], m);
      assert (messages + [m])[1..] == messages[1..] + [m];
      var (c1, rest) := SealAll(suite, c0, messages[1..]);
      var frame := SealFrame(suite, c1, m).1;
      assert frame0 + (rest + frame) == frame0 + rest + frame;
    }
  }

  /** Two uses of the cipher a message: with `RotationSchedule`, the key changes
      after every 500 messages. */
  lemma {:induction false} TwoUsesEach(suite: Suite, c: Cipher, messages: seq<Bytes>)
    ensures SealAll(suite, c, messages).0 == After(suite, c, 2 * |messages|)
    decreases |messages|
  {
    hide Next;
    if messages != [] {
      var init, last := messages[..|messages| - 1], messages[|messages| - 1];
      TwoUsesEach(suite, c, init);
      SealAllSnoc(suite, c, init, last);
      assert init + [last] == messages;
    }
  }

  predicate Sized(messages: seq<Bytes>) {
    forall i :: 0 <= i < |messages| ==> |messages[i]| <= MAX_MESSAGE
  }

  lemma HeaderOpens(suite: Suite, c: Cipher, m: Bytes)
    requires suite.Lawful() && |m| < U32_LIMIT
    ensures |HeaderOf(suite, c, m)| == HEADER_SIZE
    ensures suite.Open(c.key, Iv(c.nonce), HeaderOf(suite, c, m)[..4], HeaderOf(suite, c, m)[4..], [])
            == Some(U32(|m|))
    ensures ReadU32(U32(|m|)) == |m|
  {
    var (size, tag) := suite.Seal(c.key, Iv(c.nonce), U32(|m|), []);
    assert (size + tag)[..4] == size && (size + tag)[4..] == tag;
    U32RoundTrip(|m|, []);
    assert U32(|m|) + [] == U32(|m|);
  }

  lemma BodyOpens(suite: Suite, c: Cipher, m: Bytes)
    requires suite.Lawful()
    ensures |BodyOf(suite, c, m)| == |m| + 16
    ensures var c1 := Next(suite, c);
            suite.Open(c1.key, Iv(c1.nonce), BodyOf(suite, c, m)[..|m|], BodyOf(suite, c, m)[|m|..], []) == Some(m)
  {
  }

  lemma FrameParts(suite: Suite, c: Cipher, m: Bytes)
    ensures SealFrame(suite, c, m) == (Next(suite, Next(suite, c)), HeaderOf(suite, c, m) + BodyOf(suite, c, m))
  {
    var (size, tag1) := suite.Seal(c.key, Iv(c.nonce), U32(|m|), []);
    var c1 := Next(suite, c);
    var (body, tag2) := suite.Seal(c1.key, Iv(c1.nonce), m, []);
    assert size + tag1 + body + tag2 == (size + tag1) + (body + tag2);
  }

  /** The bytes under way when some of them sit in the input buffer. */
  lemma Front(input: Bytes, rest: Bytes, n: nat, front: Bytes, back: Bytes)
    requires n <= |input| && input + rest == front + back && |front| == n
    ensures input[..n] == front && input[n..] + rest == back
  {
    assert (input + rest)[..n] == front && (input + rest)[n..] == back;
    assert (input + rest)[..n] == input[..n] && (input + rest)[n..] == input[n..] + rest;
  }

  /** What is coming starts with the header of the next message. */
  lemma NextFrame(suite: Suite, first: Cipher, wrote: seq<Bytes>, now: Cipher, s: Stream, coming: Bytes)
    requires Flow(suite, first, wrote, now, s, coming) && !s.hasSize && coming != []
    ensures 1 <= |s.events| <= |wrote|
    ensures var k := |s.events| - 1;
            var c := SealAll(suite, first, wrote[..k]).0;
            s.h.recv == c
            && coming == HeaderOf(suite, c, wrote[k])
                         + (BodyOf(suite, c, wrote[k])
                            + SealAll(suite, SealFrame(suite, c, wrote[k]).0, wrote[k + 1..]).1)
  {
    hide HeaderOf, BodyOf, Next, SealFrame;
    var k := |s.events| - 1;
    var c := SealAll(suite, first, wrote[..k]).0;
    assert wrote[k..] != [];
    FrameParts(suite, c, wrote[k]);
    assert wrote[k..][1..] == wrote[k + 1..];
    var tail := SealAll(suite, SealFrame(suite, c, wrote[k]).0, wrote[k + 1..]).1;
    assert HeaderOf(suite, c, wrote[k]) + BodyOf(suite, c, wrote[k]) + tail
           == HeaderOf(suite, c, wrote[k]) + (BodyOf(suite, c, wrote[k]) + tail);
  }

  /** Parsing a header. */
  lemma StepHeader(suite: Suite, s: Stream, rest: Bytes, m: Bytes, behind: Bytes)
    requires suite.Lawful() && s.Valid() && s.act == ActDone && !s.hasSize && s.waiting <= |s.input|
    requires |m| < U32_LIMIT && s.input + rest == HeaderOf(suite, s.h.recv, m) + behind
    ensures var t := Step(suite, s);
            if |m| <= MAX_MESSAGE then
              t == s.(h := s.h.(recv := Next(suite, s.h.recv)), hasSize := true, waiting := |m| + 16,
                      input := s.input[HEADER_SIZE..])
              && t.input + rest == behind
            else
              t.act == ActNone && t.events == s.events + [Failed] && t.sent == s.sent
  {
    hide HeaderOf, Next, Iv, ReadU32, U32;
    HeaderOpens(suite, s.h.recv, m);
    Front(s.input, rest, HEADER_SIZE, HeaderOf(suite, s.h.recv, m), behind);
  }

  /** Parsing the header of the next frame: its body is awaited when it is short
      enough, otherwise the stream is destroyed. */
  lemma FlowHeader(suite: Suite, first: Cipher, wrote: seq<Bytes>, now: Cipher, s: Stream, rest: Bytes)
    requires suite.Lawful() && s.Valid() && s.waiting <= |s.input|
    requires forall i :: 0 <= i < |wrote| ==> |wrote[i]| < U32_LIMIT
    requires Flow(suite, first, wrote, now, s, s.input + rest) && !s.hasSize
    ensures 1 <= |s.events| <= |wrote|
    ensures var t := Step(suite, s);
            if |wrote[|s.events| - 1]| <= MAX_MESSAGE then
              t == s.(h := s.h.(recv := t.h.recv), hasSize := true, waiting := t.waiting, input := t.input)
              && Flow(suite, first, wrote, now, t, t.input + rest)
            else
              t.act == ActNone && t.events == s.events + [Failed] && t.sent == s.sent
  {
    hide SealFrame, HeaderOf, BodyOf, Next, SealAll, Step, Datas;
    NextFrame(suite, first, wrote, now, s, s.input + rest);
    var k := |s.events| - 1;
    var c := SealAll(suite, first, wrote[..k]).0;
    var tail := SealAll(suite, SealFrame(suite, c, wrote[k]).0, wrote[k + 1..]).1;
    StepHeader(suite, s, rest, wrote[k], BodyOf(suite, c, wrote[k]) + tail);
  }

  /** Parsing the body: the message is delivered. */
  lemma FlowBody(suite: Suite, first: Cipher, wrote: seq<Bytes>, now: Cipher, s: Stream, rest: Bytes)
    requires suite.Lawful() && s.Valid() && s.waiting <= |s.input|
    requires Flow(suite, first, wrote, now, s, s.input + rest) && s.hasSize
    ensures var t := Step(suite, s);
            t == s.(h := s.h.(recv := t.h.recv), hasSize := false, waiting := HEADER_SIZE, input := t.input,
                    events := t.events)
            && Flow(suite, first, wrote, now, t, t.input + rest)
  {
    hide SealFrame, HeaderOf, BodyOf, Next, Iv, ReadU32, U32;
    var k := |s.events| - 1;
    var c := SealAll(suite, first, wrote[..k]).0;
    var m := wrote[k];
    FrameParts(suite, c, m);
    BodyOpens(suite, c, m);
    SealAllSnoc(suite, first, wrote[..k], m);
    assert wrote[..k] + [m] == wrote[..k + 1];
    var tail := SealAll(suite, SealFrame(suite, c, m).0, wrote[k + 1..]).1;
    Front(s.input, rest, s.waiting, BodyOf(suite, c, m), tail);
    assert Datas(wrote[..k]) + [Data(m)] == Datas(wrote[..k + 1]);
    assert [Connected] + Datas(wrote[..k]) + [Data(m)] == [Connected] + Datas(wrote[..k + 1]);
  }

  /** Writing one more message on a ready stream. */
  lemma FlowWrite(suite: Suite, first: Cipher, wrote: seq<Bytes>, now: Cipher, dst: Stream, coming: Bytes, m: Bytes)
    requires Flow(suite, first, wrote, now, dst, coming)
    ensures var (end, frame) := SealFrame(suite, now, m);
            Flow(suite, first, wrote + [m], end, dst, coming + frame)
  {
    hide SealFrame, BodyOf, Next;
    var k := |dst.events| - 1;
    var c := SealAll(suite, first, wrote[..k]).0;
    var frame := SealFrame(suite, now, m).1;
    SealAllSnoc(suite, first, wrote, m);
    assert (wrote + [m])[..k] == wrote[..k];
    SealAllSplit(suite, first, wrote, k);
    if !dst.hasSize {
      SealAllSnoc(suite, c, wrote[k..], m);
      assert (wrote + [m])[k..] == wrote[k..] + [m];
    } else {
      var c2 := SealFrame(suite, c, wrote[k]).0;
      assert wrote[k..][1..] == wrote[k + 1..];
      SealAllSnoc(suite, c2, wrote[k + 1..], m);
      assert (wrote + [m])[k + 1..] == wrote[k + 1..] + [m] && (wrote + [m])[k] == wrote[k];
      var tail := SealAll(suite, c2, wrote[k + 1..]).1;
      assert BodyOf(suite, c, wrote[k]) + tail + frame == BodyOf(suite, c, wrote[k]) + (tail + frame);
    }
  }

  /** Sealing a sequence of messages is sealing its front and then its back. */
  lemma {:induction false} SealAllSplit(suite: Suite, c: Cipher, messages: seq<Bytes>, k: nat)
    requires k <= |messages|
    ensures var (mid, front) := SealAll(suite, c, messages[..k]);
            SealAll(suite, c, messages) == (SealAll(suite, mid, messages[k..]).0,
                                            front + SealAll(suite, mid, messages[k..]).1)
    decreases |messages|
  {
    hide SealFrame;
    if k == 0 {
      assert messages[..0] == [] && messages[0..] == messages;
      var all := SealAll(suite, c, messages).1;
      assert [] + all == all;
    } else {
      var (c1, frame) := SealFrame(suite, c, messages[0]);
      SealAllSplit(suite, c1, messages[1..], k - 1);
      assert messages[..k][1..] == messages[1..][..k - 1] && messages[k..] == messages[1..][k - 1..];
      var (mid, front) := SealAll(suite, c1, messages[1..][..k - 1]);
      var back := SealAll(suite, mid, messages[k..]).1;
      assert frame + (front + back) == frame + front + back;
    }
  }

  // The five phases of a run.

  ghost predicate NotOpen(keys: Keys, x: Acts, r: Run) {
    && r.a == Idle(x.i0, keys.initiatorEphemeral) && r.wroteA == []
    && r.b == Stream(x.r0, keys.responderEphemeral, ActOne, [], ACT_SIZE, false, r.wroteB, [], [])
  }

  ghost predicate FirstActSent(keys: Keys, x: Acts, r: Run)
    requires r.Valid()
  {
    && r.a == Stream(x.i1, keys.initiatorEphemeral, ActTwo, [], ACT_SIZE, false, r.wroteA, x.act1, [])
    && r.b == Stream(x.r0, keys.responderEphemeral, ActOne, r.b.input, ACT_SIZE, false, r.wroteB, [], [])
    && r.ComingB() == x.act1
  }

  ghost predicate SecondActSent(keys: Keys, x: Acts, r: Run)
    requires r.Valid()
  {
    && r.a == Stream(x.i1, keys.initiatorEphemeral, ActTwo, r.a.input, ACT_SIZE, false, r.wroteA, x.act1, [])
    && r.b == Stream(x.r2, keys.responderEphemeral, ActThree, [], ACT_THREE_SIZE, false, r.wroteB, x.act2, [])
    && r.ComingB() == [] && r.ComingA() == x.act2
  }

  ghost predicate ThirdActSent(suite: Suite, keys: Keys, x: Acts, r: Run)
    requires r.Valid()
  {
    var (c, frames) := SealAll(suite, x.i3.send, r.wroteA);
    && r.a == Stream(x.i3.(send := c), keys.initiatorEphemeral, ActDone, [], HEADER_SIZE, false, [], r.a.sent,
                     [Connected])
    && r.b == Stream(x.r2, keys.responderEphemeral, ActThree, r.b.input, ACT_THREE_SIZE, false, r.wroteB, x.act2, [])
    && r.ComingA() == [] && r.ComingB() == x.act3 + frames
  }

  ghost predicate BothReady(suite: Suite, x: Acts, r: Run)
    requires r.Valid()
  {
    && r.a.act == ActDone && r.b.act == ActDone
    && Flow(suite, x.i3.send, r.wroteA, r.a.h.send, r.b, r.ComingB())
    && Flow(suite, x.r3.send, r.wroteB, r.b.h.send, r.a, r.ComingA())
  }

  ghost predicate Inv(suite: Suite, keys: Keys, x: Acts, r: Run) {
    && r.Valid() && Sized(r.wroteA) && Sized(r.wroteB)
    && (NotOpen(keys, x, r) || FirstActSent(keys, x, r) || SecondActSent(keys, x, r)
        || ThirdActSent(suite, keys, x, r) || BothReady(suite, x, r))
  }

  /** What `HandshakeAgrees` gives. */
  ghost predicate Setup(suite: Suite, keys: Keys, x: Acts) {
    && suite.Lawful() && Honest(suite, keys, x)
    && |x.act1| == |x.act2| == ACT_SIZE && |x.act3| == ACT_THREE_SIZE
    && x.i3.send == x.r3.recv && x.i3.recv == x.r3.send
    && x.i0.initiator && x.i1.initiator && !x.r0.initiator && !x.r2.initiator
  }

  /** Unleashing is sending the queue. */
  lemma UnleashSends(suite: Suite, s: Stream)
    ensures var (c, frames) := SealAll(suite, s.h.send, s.queue);
            Unleash(suite, s) == s.(h := s.h.(send := c), act := ActDone, waiting := HEADER_SIZE, queue := [],
                                    sent := s.sent + frames, events := s.events + [Connected])
  {
    hide Send, SealAll;
    SendAllFrame(suite, s.(act := ActDone, waiting := HEADER_SIZE), s.queue);
  }

  lemma AppendAfter(sent: Bytes, at: nat, more: Bytes)
    requires at <= |sent|
    ensures (sent + more)[at..] == sent[at..] + more
  {
  }

  lemma StepReadsFirstAct(suite: Suite, keys: Keys, x: Acts, r: Run)
    requires Setup(suite, keys, x) && r.Valid() && FirstActSent(keys, x, r) && r.b.waiting <= |r.b.input|
    ensures r.(b := Step(suite, r.b)).Valid() && SecondActSent(keys, x, r.(b := Step(suite, r.b)))
  {
    hide GenActOne, GenActTwo, GenActThree, RecvActOne, RecvActTwo, RecvActThree, Init;
    Front(r.b.input, r.a.sent[r.atB..], ACT_SIZE, x.act1, []);
    assert r.b.input[ACT_SIZE..] == [];
  }

  lemma StepReadsSecondAct(suite: Suite, keys: Keys, x: Acts, r: Run)
    requires Setup(suite, keys, x) && r.Valid() && SecondActSent(keys, x, r) && r.a.waiting <= |r.a.input|
    ensures r.(a := Step(suite, r.a)).Valid() && ThirdActSent(suite, keys, x, r.(a := Step(suite, r.a)))
  {
    hide GenActOne, GenActTwo, GenActThree, RecvActOne, RecvActTwo, RecvActThree, Init, Unleash, SealAll;
    Front(r.a.input, r.b.sent[r.atA..], ACT_SIZE, x.act2, []);
    assert r.a.input[ACT_SIZE..] == [];
    var t := r.a.(input := [], h := x.i3, sent := r.a.sent + x.act3);
    assert Step(suite, r.a) == Unleash(suite, t);
    UnleashSends(suite, t);
    var frames := SealAll(suite, x.i3.send, r.wroteA).1;
    AppendAfter(r.a.sent, r.atB, x.act3 + frames);
    assert r.a.sent + x.act3 + frames == r.a.sent + (x.act3 + frames);
    assert [] + [Connected] == [Connected] && [] + (x.act3 + frames) == x.act3 + frames;
  }

  lemma StepReadsThirdAct(suite: Suite, keys: Keys, x: Acts, r: Run)
    requires Setup(suite, keys, x) && r.Valid() && ThirdActSent(suite, keys, x, r) && r.b.waiting <= |r.b.input|
    ensures r.(b := Step(suite, r.b)).Valid() && BothReady(suite, x, r.(b := Step(suite, r.b)))
  {
    hide GenActOne, GenActTwo, GenActThree, RecvActOne, RecvActTwo, RecvActThree, Init, Unleash, SealFrame;
    var frames := SealAll(suite, x.i3.send, r.wroteA).1;
    Front(r.b.input, r.a.sent[r.atB..], ACT_THREE_SIZE, x.act3, frames);
    var t := r.b.(input := r.b.input[ACT_THREE_SIZE..], h := x.r3);
    assert Step(suite, r.b) == Unleash(suite, t);
    UnleashSends(suite, t);
    AppendAfter(r.b.sent, r.atA, SealAll(suite, x.r3.send, r.wroteB).1);
    assert r.wroteA[..0] == [] && r.wroteA[0..] == r.wroteA && r.wroteB[..0] == [] && r.wroteB[0..] == r.wroteB;
    assert [] + [Connected] == [Connected] + Datas([]) && Datas([]) == [];
  }

  lemma StepReadsFrameB(suite: Suite, keys: Keys, x: Acts, r: Run)
    requires Setup(suite, keys, x) && Inv(suite, keys, x, r) && BothReady(suite, x, r)
    requires r.b.waiting <= |r.b.input|
    ensures r.(b := Step(suite, r.b)).Valid() && BothReady(suite, x, r.(b := Step(suite, r.b)))
  {
    hide SealFrame, SealAll, Step, BodyOf, Next, Datas;
    StepShrinks(suite, r.b);
    if r.b.hasSize {
      FlowBody(suite, x.i3.send, r.wroteA, r.a.h.send, r.b, r.a.sent[r.atB..]);
    } else {
      FlowHeader(suite, x.i3.send, r.wroteA, r.a.h.send, r.b, r.a.sent[r.atB..]);
    }
  }

  lemma StepReadsFrameA(suite: Suite, keys: Keys, x: Acts, r: Run)
    requires Setup(suite, keys, x) && Inv(suite, keys, x, r) && BothReady(suite, x, r)
    requires r.a.waiting <= |r.a.input|
    ensures r.(a := Step(suite, r.a)).Valid() && BothReady(suite, x, r.(a := Step(suite, r.a)))
  {
    hide SealFrame, SealAll, Step, BodyOf, Next, Datas;
    StepShrinks(suite, r.a);
    if r.a.hasSize {
      FlowBody(suite, x.r3.send, r.wroteB, r.b.h.send, r.a, r.b.sent[r.atA..]);
    } else {
      FlowHeader(suite, x.r3.send, r.wroteB, r.b.h.send, r.a, r.b.sent[r.atA..]);
    }
  }

  /** Who can have something to parse in which phase. */
  lemma Busy(suite: Suite, keys: Keys, x: Acts, r: Run)
    requires Inv(suite, keys, x, r)
    ensures r.b.act != ActNone
    ensures r.b.waiting <= |r.b.input| ==>
              FirstActSent(keys, x, r) || ThirdActSent(suite, keys, x, r) || BothReady(suite, x, r)
    ensures r.a.act != ActNone && r.a.waiting <= |r.a.input| ==>
              SecondActSent(keys, x, r) || BothReady(suite, x, r)
  {
  }

  lemma {:induction false} DrainB(suite: Suite, keys: Keys, x: Acts, r: Run)
    requires Setup(suite, keys, x) && Inv(suite, keys, x, r)
    ensures Inv(suite, keys, x, r.(b := Drain(suite, r.b)))
    decreases |r.b.input|
  {
    hide Setup, NotOpen, FirstActSent, SecondActSent, ThirdActSent, BothReady, Step;
    Busy(suite, keys, x, r);
    if r.b.waiting <= |r.b.input| {
      StepShrinks(suite, r.b);
      if FirstActSent(keys, x, r) {
        StepReadsFirstAct(suite, keys, x, r);
      } else if ThirdActSent(suite, keys, x, r) {
        StepReadsThirdAct(suite, keys, x, r);
      } else {
        StepReadsFrameB(suite, keys, x, r);
      }
      DrainB(suite, keys, x, r.(b := Step(suite, r.b)));
    }
  }

  lemma {:induction false} DrainA(suite: Suite, keys: Keys, x: Acts, r: Run)
    requires Setup(suite, keys, x) && Inv(suite, keys, x, r)
    ensures Inv(suite, keys, x, r.(a := Drain(suite, r.a)))
    decreases |r.a.input|
  {
    hide Setup, NotOpen, FirstActSent, SecondActSent, ThirdActSent, BothReady, Step;
    Busy(suite, keys, x, r);
    if r.a.act != ActNone && r.a.waiting <= |r.a.input| {
      StepShrinks(suite, r.a);
      if SecondActSent(keys, x, r) {
        StepReadsSecondAct(suite, keys, x, r);
      } else {
        StepReadsFrameA(suite, keys, x, r);
      }
      DrainA(suite, keys, x, r.(a := Step(suite, r.a)));
    }
  }

  /** Arriving moves bytes from under way into the input. */
  lemma ArriveB(suite: Suite, keys: Keys, x: Acts, r: Run, n: nat)
    requires Inv(suite, keys, x, r) && r.atB + n <= |r.a.sent|
    ensures var b := r.b.(input := r.b.input + r.a.sent[r.atB..r.atB + n]);
            Inv(suite, keys, x, r.(b := b, atB := r.atB + n))
  {
    hide SealAll, SealFrame, BodyOf, Datas, Next, Init, Flow;
    var b := r.b.(input := r.b.input + r.a.sent[r.atB..r.atB + n]);
    var r' := r.(b := b, atB := r.atB + n);
    if n == 0 {
      assert b.input == r.b.input && r' == r;
    } else {
      assert r'.ComingA() == r.ComingA() && r'.ComingB() == r.ComingB();
      assert r.ComingB() != [];
      if FirstActSent(keys, x, r) {
        assert FirstActSent(keys, x, r');
      } else if ThirdActSent(suite, keys, x, r) {
        assert ThirdActSent(suite, keys, x, r');
      } else {
        FlowIgnoresInput(suite, x.i3.send, r.wroteA, r.a.h.send, r.b, r.ComingB(), b.input);
        assert BothReady(suite, x, r');
      }
    }
  }

  lemma ArriveA(suite: Suite, keys: Keys, x: Acts, r: Run, n: nat)
    requires Inv(suite, keys, x, r) && r.atA + n <= |r.b.sent|
    ensures var a := r.a.(input := r.a.input + r.b.sent[r.atA..r.atA + n]);
            Inv(suite, keys, x, r.(a := a, atA := r.atA + n))
  {
    hide SealAll, SealFrame, BodyOf, Datas, Next, Init, Flow;
    var a := r.a.(input := r.a.input + r.b.sent[r.atA..r.atA + n]);
    var r' := r.(a := a, atA := r.atA + n);
    if n == 0 {
      assert a.input == r.a.input && r' == r;
    } else {
      assert r'.ComingA() == r.ComingA() && r'.ComingB() == r.ComingB();
      assert r.ComingA() != [];
      if SecondActSent(keys, x, r) {
        assert SecondActSent(keys, x, r');
      } else {
        FlowIgnoresInput(suite, x.r3.send, r.wroteB, r.b.h.send, r.a, r.ComingA(), a.input);
        assert BothReady(suite, x, r');
      }
    }
  }

  lemma FlowIgnoresInput(suite: Suite, first: Cipher, wrote: seq<Bytes>, now: Cipher, dst: Stream, coming: Bytes,
                         input: Bytes)
    ensures Flow(suite, first, wrote, now, dst, coming) ==> Flow(suite, first, wrote, now, dst.(input := input), coming)
  {
    hide SealAll, SealFrame, BodyOf, Datas, Next;
  }

  lemma WriteAKeepsInv(suite: Suite, keys: Keys, x: Acts, r: Run, m: Bytes)
    requires Inv(suite, keys, x, r) && |m| <= MAX_MESSAGE
    ensures Inv(suite, keys, x, Apply(suite, r, WriteA(m)))
  {
    hide SealAll, SealFrame, BodyOf, Datas, Next, Init, Flow;
    var frame := SealFrame(suite, r.a.h.send, m).1;
    AppendAfter(r.a.sent, r.atB, frame);
    if ThirdActSent(suite, keys, x, r) {
      SealAllSnoc(suite, x.i3.send, r.wroteA, m);
      var frames := SealAll(suite, x.i3.send, r.wroteA).1;
      assert x.act3 + frames + frame == x.act3 + (frames + frame);
      assert r.b.input + (r.a.sent[r.atB..] + frame) == r.ComingB() + frame;
    } else if BothReady(suite, x, r) {
      FlowWrite(suite, x.i3.send, r.wroteA, r.a.h.send, r.b, r.ComingB(), m);
      assert r.b.input + (r.a.sent[r.atB..] + frame) == r.ComingB() + frame;
      var t := Write(suite, r.a, m);
      FlowIgnoresSend(suite, x.r3.send, r.wroteB, r.b.h.send, r.a, r.ComingA(), t.h.send, t.sent);
    }
  }

  lemma WriteBKeepsInv(suite: Suite, keys: Keys, x: Acts, r: Run, m: Bytes)
    requires Inv(suite, keys, x, r) && |m| <= MAX_MESSAGE
    ensures Inv(suite, keys, x, Apply(suite, r, WriteB(m)))
  {
    hide SealAll, SealFrame, BodyOf, Datas, Next, Init, Flow;
    if BothReady(suite, x, r) {
      var frame := SealFrame(suite, r.b.h.send, m).1;
      AppendAfter(r.b.sent, r.atA, frame);
      FlowWrite(suite, x.r3.send, r.wroteB, r.b.h.send, r.a, r.ComingA(), m);
      assert r.a.input + (r.b.sent[r.atA..] + frame) == r.ComingA() + frame;
      var t := Write(suite, r.b, m);
      FlowIgnoresSend(suite, x.i3.send, r.wroteA, r.a.h.send, r.b, r.ComingB(), t.h.send, t.sent);
    }
  }

  lemma FlowIgnoresSend(suite: Suite, first: Cipher, wrote: seq<Bytes>, now: Cipher, dst: Stream, coming: Bytes,
                        send: Cipher, sent: Bytes)
    requires Flow(suite, first, wrote, now, dst, coming)
    ensures Flow(suite, first, wrote, now, dst.(h := dst.h.(send := send), sent := sent), coming)
  {
  }

  lemma OpenKeepsInv(suite: Suite, keys: Keys, x: Acts, r: Run)
    requires Setup(suite, keys, x) && Inv(suite, keys, x, r) && Enabled(r, OpenA)
    ensures Inv(suite, keys, x, Apply(suite, r, OpenA))
  {
    hide GenActOne, GenActTwo, GenActThree, RecvActOne, RecvActTwo, RecvActThree, SealAll, Flow;
    assert x.i0.initiator;
    assert r.a.sent == [] && [] + x.act1 == x.act1;
  }

  /** Every step of a run keeps the invariant: no honest peer ever fails. */
  lemma ApplyKeepsInv(suite: Suite, keys: Keys, x: Acts, r: Run, move: Move)
    requires Setup(suite, keys, x) && Inv(suite, keys, x, r) && Enabled(r, move)
    ensures Inv(suite, keys, x, Apply(suite, r, move))
  {
    hide Setup, NotOpen, FirstActSent, SecondActSent, ThirdActSent, BothReady, Drain, Start, Write;
    match move
    case OpenA => OpenKeepsInv(suite, keys, x, r);
    case WriteA(m) => WriteAKeepsInv(suite, keys, x, r, m);
    case WriteB(m) => WriteBKeepsInv(suite, keys, x, r, m);
    case ToA(n) =>
      ArriveA(suite, keys, x, r, n);
      if r.a.act != ActNone {
        DrainA(suite, keys, x, r.(a := r.a.(input := r.a.input + r.b.sent[r.atA..r.atA + n]), atA := r.atA + n));
      } else {
        NothingYet(suite, keys, x, r);
      }
    case ToB(n) =>
      ArriveB(suite, keys, x, r, n);
      Busy(suite, keys, x, r);
      DrainB(suite, keys, x, r.(b := r.b.(input := r.b.input + r.a.sent[r.atB..r.atB + n]), atB := r.atB + n));
  }

  lemma NothingYet(suite: Suite, keys: Keys, x: Acts, r: Run)
    requires Inv(suite, keys, x, r) && r.a.act == ActNone
    ensures r.b.sent == []
  {
  }

  /** The state after a sequence of moves, when each was possible in its turn. */
  function Exec(suite: Suite, keys: Keys, moves: seq<Move>): Option<Run>
    decreases |moves|
  {
    if moves == [] then Some(Begin(suite, keys))
    else
      match Exec(suite, keys, moves[..|moves| - 1])
      case None => None
      case Some(r) =>
        var move := moves[|moves| - 1];
        if r.Valid() && Enabled(r, move) then Some(Apply(suite, r, move)) else None
  }

  /** What a stream has delivered. */
  function Received(events: seq<Event>): seq<Bytes>
    decreases |events|
  {
    if events == [] then []
    else
      var init := Received(events[..|events| - 1]);
      match events[|events| - 1]
      case Data(payload) => init + [payload]
      case _ => init
  }

  predicate Parsed(s: Stream) {
    s.act != ActNone ==> |s.input| < s.waiting
  }

  lemma {:induction false} ReceivedDatas(messages: seq<Bytes>)
    ensures Received([Connected] + Datas(messages)) == messages
    decreases |messages|
  {
    var events := [Connected] + Datas(messages);
    if messages == [] {
      assert events == [Connected] && events[..0] == [];
    } else {
      var init, last := messages[..|messages| - 1], messages[|messages| - 1];
      ReceivedDatas(init);
      assert events[..|events| - 1] == [Connected] + Datas(init);
      assert init + [last] == messages;
    }
  }

  lemma ParsedAfter(suite: Suite, r: Run, move: Move)
    requires r.Valid() && Enabled(r, move) && Parsed(r.a) && Parsed(r.b)
    requires move.OpenA? ==> r.a.input == []
    ensures Parsed(Apply(suite, r, move).a) && Parsed(Apply(suite, r, move).b)
  {
    hide GenActOne, SealFrame, Drain;
    match move
    case ToA(n) =>
      if r.a.act != ActNone {
        DrainDrained(suite, r.a.(input := r.a.input + r.b.sent[r.atA..r.atA + n]));
      }
    case ToB(n) =>
      if r.b.act != ActNone {
        DrainDrained(suite, r.b.(input := r.b.input + r.a.sent[r.atB..r.atB + n]));
      }
    case _ =>
  }

  lemma {:induction false} ExecKeepsInv(suite: Suite, keys: Keys, x: Acts, moves: seq<Move>)
    requires Setup(suite, keys, x) && Exec(suite, keys, moves).Some?
    ensures var r := Exec(suite, keys, moves).value;
            Inv(suite, keys, x, r) && Parsed(r.a) && Parsed(r.b)
    decreases |moves|
  {
    hide GenActOne, GenActTwo, GenActThree, RecvActOne, RecvActTwo, RecvActThree, Apply, Setup, ThirdActSent,
         BothReady;
    if moves == [] {
      BeginKeepsInv(suite, keys, x);
    } else {
      var init, move := moves[..|moves| - 1], moves[|moves| - 1];
      ExecKeepsInv(suite, keys, x, init);
      var r := Exec(suite, keys, init).value;
      ApplyKeepsInv(suite, keys, x, r, move);
      if move.OpenA? { OnlyOnce(suite, keys, x, r); }
      ParsedAfter(suite, r, move);
    }
  }

  lemma BeginKeepsInv(suite: Suite, keys: Keys, x: Acts)
    requires Setup(suite, keys, x)
    ensures Inv(suite, keys, x, Begin(suite, keys))
    ensures Parsed(Begin(suite, keys).a) && Parsed(Begin(suite, keys).b)
  {
    hide GenActOne, GenActTwo, GenActThree, RecvActOne, RecvActTwo, RecvActThree;
  }

  lemma OnlyOnce(suite: Suite, keys: Keys, x: Acts, r: Run)
    requires Inv(suite, keys, x, r) && Enabled(r, OpenA)
    ensures r.a.input == []
  {
  }

  /** While a message is missing, enough is coming to parse on. */
  lemma FlowGoesOn(suite: Suite, first: Cipher, wrote: seq<Bytes>, now: Cipher, dst: Stream, coming: Bytes)
    requires suite.Lawful() && dst.Valid()
    requires Flow(suite, first, wrote, now, dst, coming) && (dst.hasSize || |dst.events| <= |wrote|)
    ensures dst.waiting <= |coming|
  {
  }

  lemma FlowDelivers(suite: Suite, first: Cipher, wrote: seq<Bytes>, now: Cipher, dst: Stream, coming: Bytes)
    requires suite.Lawful() && dst.Valid() && Flow(suite, first, wrote, now, dst, coming)
    ensures Failed !in dst.events && Received(dst.events) <= wrote
    ensures |coming| < dst.waiting ==> Received(dst.events) == wrote && dst.h.recv == now
  {
    hide Next, Iv, BodyOf, SealFrame, SealAll;
    var k := |dst.events| - 1;
    ReceivedDatas(wrote[..k]);
    if dst.hasSize || k < |wrote| {
      FlowGoesOn(suite, first, wrote, now, dst, coming);
    } else {
      assert wrote[..k] == wrote;
    }
  }

  /** Any run of two honest peers, however writes and arrivals interleave and
      however the bytes are cut: nobody fails; what one end has delivered is a
      prefix of what the other was asked to send since it started, in order;
      and when nothing is under way, the handshake is over, everything was
      delivered, including what was written before the handshake ended, and
      sending and receiving ciphers are equal, with a nonce below 1000. */
  lemma Delivery(suite: Suite, keys: Keys, moves: seq<Move>)
    requires suite.Lawful() && keys.Valid(suite) && Exec(suite, keys, moves).Some?
    ensures var r := Exec(suite, keys, moves).value;
            && r.Valid()
            && Failed !in r.a.events && Failed !in r.b.events
            && Received(r.b.events) <= r.wroteA && Received(r.a.events) <= r.wroteB
            && (r.a.act != ActNone && r.atA == |r.b.sent| && r.atB == |r.a.sent| ==>
                  && r.a.act == ActDone && r.b.act == ActDone
                  && Received(r.b.events) == r.wroteA && Received(r.a.events) == r.wroteB
                  && r.a.h.send == r.b.h.recv && r.b.h.send == r.a.h.recv
                  && r.a.h.send.nonce < ROTATION_INTERVAL && r.b.h.send.nonce < ROTATION_INTERVAL)
  {
    hide GenActOne, GenActTwo, GenActThree, RecvActOne, RecvActTwo, RecvActThree, Init, Exec, Honest, SealAll, Flow,
         Keys.Valid;
    var x := HandshakeAgrees(suite, keys);
    ExecKeepsInv(suite, keys, x, moves);
    var r := Exec(suite, keys, moves).value;
    if BothReady(suite, x, r) {
      FlowDelivers(suite, x.i3.send, r.wroteA, r.a.h.send, r.b, r.ComingB());
      FlowDelivers(suite, x.r3.send, r.wroteB, r.b.h.send, r.a, r.ComingA());
      SendNonce(suite, x.i3.send, r.wroteA, r.a.h.send, r.b, r.ComingB());
      SendNonce(suite, x.r3.send, r.wroteB, r.b.h.send, r.a, r.ComingA());
    } else if ThirdActSent(suite, keys, x, r) {
      EventsSoFar(r.a);
    }
  }

  lemma EventsSoFar(s: Stream)
    requires s.events == [Connected]
    ensures Received(s.events) == []
  {
  }

  lemma SendNonce(suite: Suite, first: Cipher, wrote: seq<Bytes>, now: Cipher, dst: Stream, coming: Bytes)
    requires Flow(suite, first, wrote, now, dst, coming) && first.nonce == 0
    ensures now.nonce < ROTATION_INTERVAL
  {
    hide SealAll, Next, Rotations;
    TwoUsesEach(suite, first, wrote);
    RotationSchedule(suite, first, 2 * |wrote|);
  }
}
