/**
 Writes made by the listeners of a stream while it is still parsing: what is sent
 in answer to an event, in the middle of a feed, is what would be sent right
 behind the feed.  So a run in which listeners answer at once is a run of
 deliveries and writes.
 */
module BrontideReplies {
  import opened Primitives
  import opened Brontide
  import opened BrontideRuns

  function WriteAll(suite: Suite, s: Stream, messages: seq<Bytes>): Stream
    decreases |messages|
  {
    if messages == [] then s else WriteAll(suite, Write(suite, s, messages[0]), messages[1..])
  }

  /** The listener's answer to the last of the events so far, if it is new. */
  function Replied(suite: Suite, before: Stream, s: Stream, reply: seq<Event> -> seq<Bytes>): Stream {
    if |s.events| > |before.events| then WriteAll(suite, s, reply(s.events)) else s
  }

  lemma {:induction false} WriteAllKeeps(suite: Suite, s: Stream, messages: seq<Bytes>)
    requires s.Valid()
    ensures var t := WriteAll(suite, s, messages);
            t.Valid() && t.input == s.input && t.events == s.events && t.act == s.act
    decreases |messages|
  {
    hide SealFrame;
    if messages != [] {
      WriteAllKeeps(suite, Write(suite, s, messages[0]), messages[1..]);
    }
  }

  lemma {:induction false} WriteAllTwice(suite: Suite, s: Stream, first: seq<Bytes>, second: seq<Bytes>)
    ensures WriteAll(suite, WriteAll(suite, s, first), second) == WriteAll(suite, s, first + second)
    decreases |first|
  {
    hide Write;
    if first == [] {
      assert [] + second == second;
    } else {
      assert (first + second)[1..] == first[1..] + second;
      WriteAllTwice(suite, Write(suite, s, first[0]), first[1..], second);
    }
  }

  /** The loop of `feed` with a listener that answers every event at once. */
  function DrainWith(suite: Suite, s: Stream, reply: seq<Event> -> seq<Bytes>): Stream
    requires s.Valid()
    decreases |s.input|
  {
    if s.act == ActNone || |s.input| < s.waiting then s
    else
      StepShrinks(suite, s);
      WriteAllKeeps(suite, Step(suite, s), reply(Step(suite, s).events));
      DrainWith(suite, Replied(suite, s, Step(suite, s), reply), reply)
  }

  /** The answers to the events from the k-th on. */
  function Replies(reply: seq<Event> -> seq<Bytes>, events: seq<Event>, k: nat): seq<Bytes>
    requires k <= |events|
    decreases |events| - k
  {
    if k == |events| then [] else reply(events[..k + 1]) + Replies(reply, events, k + 1)
  }

  /** A step emits one event at most, and not before the handshake is over unless
      the stream is destroyed. */
  lemma StepEvents(suite: Suite, s: Stream)
    requires s.Valid() && s.act != ActNone && s.waiting <= |s.input|
    ensures var t := Step(suite, s);
            && s.events <= t.events && |t.events| <= |s.events| + 1
            && (s.act == ActDone && t.act != ActNone ==> t.act == ActDone)
            && (|t.events| > |s.events| && t.act != ActNone ==> t.act == ActDone)
  {
    hide GenActOne, GenActTwo, GenActThree, RecvActOne, RecvActTwo, RecvActThree, Send, Next, Iv;
    var chunk, left := s.input[..s.waiting], s.(input := s.input[s.waiting..]);
    if s.act == ActTwo && RecvActTwo(suite, s.h, chunk).Some? {
      var h := RecvActTwo(suite, s.h, chunk).value;
      if GenActThree(suite, h).Some? {
        var r := GenActThree(suite, h).value;
        SendAllFrame(suite, left.(h := r.0, sent := s.sent + r.1, act := ActDone, waiting := HEADER_SIZE), s.queue);
      }
    } else if s.act == ActThree && RecvActThree(suite, s.h, chunk).Some? {
      SendAllFrame(suite, left.(h := RecvActThree(suite, s.h, chunk).value, act := ActDone, waiting := HEADER_SIZE),
                   s.queue);
    }
  }

  lemma {:induction false} DrainEvents(suite: Suite, s: Stream)
    requires s.Valid()
    ensures s.events <= Drain(suite, s).events
    ensures s.act == ActDone && Drain(suite, s).act != ActNone ==> Drain(suite, s).act == ActDone
    decreases |s.input|
  {
    hide Step;
    if s.act != ActNone && s.waiting <= |s.input| {
      StepShrinks(suite, s);
      StepEvents(suite, s);
      DrainEvents(suite, Step(suite, s));
    }
  }

  /** After the handshake writing and parsing use different ciphers. */
  lemma StepWrite(suite: Suite, s: Stream, m: Bytes)
    requires s.Valid() && s.act == ActDone && s.waiting <= |s.input| && Step(suite, s).act != ActNone
    ensures Write(suite, s, m).Valid()
    ensures Step(suite, Write(suite, s, m)) == Write(suite, Step(suite, s), m)
  {
    hide SealFrame, Next, Iv;
  }

  /** A message written before a feed is sent as if it were written behind it,
      unless the feed destroys the stream. */
  lemma {:induction false} DrainWrite(suite: Suite, s: Stream, m: Bytes)
    requires s.Valid() && s.act == ActDone && Drain(suite, s).act != ActNone
    ensures Write(suite, s, m).Valid()
    ensures Drain(suite, Write(suite, s, m)) == Write(suite, Drain(suite, s), m)
    decreases |s.input|
  {
    hide Step, SealFrame;
    if s.waiting <= |s.input| {
      StepShrinks(suite, s);
      StepEvents(suite, s);
      StepWrite(suite, s, m);
      DrainWrite(suite, Step(suite, s), m);
    }
  }

  lemma {:induction false} DrainWriteAll(suite: Suite, s: Stream, messages: seq<Bytes>)
    requires s.Valid() && s.act == ActDone && Drain(suite, s).act != ActNone
    ensures WriteAll(suite, s, messages).Valid()
    ensures Drain(suite, WriteAll(suite, s, messages)) == WriteAll(suite, Drain(suite, s), messages)
    decreases |messages|
  {
    hide Drain, SealFrame;
    if messages != [] {
      DrainWrite(suite, s, messages[0]);
      DrainEvents(suite, s);
      DrainWriteAll(suite, Write(suite, s, messages[0]), messages[1..]);
    }
  }

  /** Answering events at once, whatever the answers depend on, is answering them
      behind the feed, in order. */
  lemma {:induction false} RepliesCanWait(suite: Suite, s: Stream, reply: seq<Event> -> seq<Bytes>)
    requires s.Valid() && Drain(suite, s).act != ActNone
    ensures |s.events| <= |Drain(suite, s).events|
    ensures DrainWith(suite, s, reply)
            == WriteAll(suite, Drain(suite, s), Replies(reply, Drain(suite, s).events, |s.events|))
    decreases |s.input|
  {
    hide Step, Write, Stream.Valid;
    DrainEvents(suite, s);
    if s.act != ActNone && s.waiting <= |s.input| {
      var t, all := Step(suite, s), Drain(suite, s).events;
      StepShrinks(suite, s);
      StepEvents(suite, s);
      DrainEvents(suite, t);
      if |t.events| == |s.events| {
        RepliesCanWait(suite, t, reply);
      } else {
        DestroyedStays(suite, t);
        var ms := reply(t.events);
        WriteAllKeeps(suite, t, ms);
        DrainWriteAll(suite, t, ms);
        DrainKept(suite, t, ms);
        RepliesCanWait(suite, WriteAll(suite, t, ms), reply);
        assert all[..|t.events|] == t.events;
        WriteAllTwice(suite, Drain(suite, t), ms, Replies(reply, all, |t.events|));
      }
    }
  }

  lemma DestroyedStays(suite: Suite, s: Stream)
    requires s.Valid()
    ensures s.act == ActNone ==> Drain(suite, s) == s
  {
  }

  lemma DrainKept(suite: Suite, s: Stream, messages: seq<Bytes>)
    requires s.Valid()
    ensures var t := Drain(suite, s);
            WriteAll(suite, t, messages).events == t.events && WriteAll(suite, t, messages).act == t.act
  {
    hide Drain;
    DrainDrained(suite, s);
    WriteAllKeeps(suite, Drain(suite, s), messages);
  }

  // ---------------------------------------------------------------------
  // Runs with listeners
  // ---------------------------------------------------------------------

  lemma StepFails(suite: Suite, s: Stream)
    requires s.Valid() && s.act != ActNone && s.waiting <= |s.input|
    ensures var t := Step(suite, s); t.act == ActNone ==> Failed in t.events
  {
    hide GenActOne, GenActTwo, GenActThree, RecvActOne, RecvActTwo, RecvActThree, Send, Next, Iv;
    var chunk, left := s.input[..s.waiting], s.(input := s.input[s.waiting..]);
    if s.act == ActTwo && RecvActTwo(suite, s.h, chunk).Some? {
      var h := RecvActTwo(suite, s.h, chunk).value;
      if GenActThree(suite, h).Some? {
        var r := GenActThree(suite, h).value;
        UnleashIgnoresRest(suite, left.(h := r.0, sent := s.sent + r.1), []);
      }
    } else if s.act == ActThree && RecvActThree(suite, s.h, chunk).Some? {
      UnleashIgnoresRest(suite, left.(h := RecvActThree(suite, s.h, chunk).value), []);
    }
  }

  lemma PrefixHas(a: seq<Event>, b: seq<Event>, e: Event)
    requires a <= b
    ensures e in a ==> e in b
  {
  }

  /** A stream that a feed destroys says so. */
  lemma {:induction false} DrainFails(suite: Suite, s: Stream)
    requires s.Valid() && s.act != ActNone && Failed !in Drain(suite, s).events
    ensures Drain(suite, s).act != ActNone
    decreases |s.input|
  {
    hide Step;
    if s.waiting <= |s.input| {
      StepShrinks(suite, s);
      StepFails(suite, s);
      DrainEvents(suite, Step(suite, s));
      PrefixHas(Step(suite, s).events, Drain(suite, s).events, Failed);
      DrainFails(suite, Step(suite, s));
    }
  }

  /** What listeners at one end write, as moves. */
  function Writes(atA: bool, messages: seq<Bytes>): seq<Move> {
    seq(|messages|, i requires 0 <= i < |messages| => if atA then WriteA(messages[i]) else WriteB(messages[i]))
  }

  function End(r: Run, atA: bool): Stream {
    if atA then r.a else r.b
  }

  predicate Small(messages: seq<Bytes>) {
    forall i :: 0 <= i < |messages| ==> |messages[i]| <= MAX_MESSAGE
  }

  lemma WriteLast(suite: Suite, s: Stream, messages: seq<Bytes>)
    requires messages != []
    ensures var k := |messages| - 1;
            WriteAll(suite, s, messages) == Write(suite, WriteAll(suite, s, messages[..k]), messages[k])
  {
    hide Write;
    var k := |messages| - 1;
    WriteAllTwice(suite, s, messages[..k], [messages[k]]);
    assert messages[..k] + [messages[k]] == messages;
    var t := WriteAll(suite, s, messages[..k]);
    assert WriteAll(suite, t, [messages[k]]) == WriteAll(suite, Write(suite, t, messages[k]), []) by {
      var none: seq<Bytes> := [];
      assert [messages[k]][1..] == none;
    }
  }

  /** Writing several messages in a row is possible after every run. */
  lemma {:induction false} WritesRun(suite: Suite, keys: Keys, moves: seq<Move>, atA: bool, messages: seq<Bytes>)
    requires suite.Lawful() && keys.Valid(suite) && Exec(suite, keys, moves).Some? && Small(messages)
    ensures var r := Exec(suite, keys, moves).value;
            var after := Exec(suite, keys, moves + Writes(atA, messages));
            && after.Some?
            && End(after.value, atA) == WriteAll(suite, End(r, atA), messages)
            && End(after.value, !atA) == End(r, !atA)
    decreases |messages|
  {
    hide Write, Keys.Valid, Exec, End, Small;
    if messages == [] {
      assert moves + Writes(atA, messages) == moves;
    } else {
      var k := |messages| - 1;
      SmallParts(messages);
      WritesRun(suite, keys, moves, atA, messages[..k]);
      var before := moves + Writes(atA, messages[..k]);
      Delivery(suite, keys, before);
      OneWrite(suite, keys, before, atA, messages[k]);
      assert moves + Writes(atA, messages) == before + Writes(atA, [messages[k]]);
      WriteLast(suite, End(Exec(suite, keys, moves).value, atA), messages);
    }
  }

  lemma SmallParts(messages: seq<Bytes>)
    requires Small(messages) && messages != []
    ensures Small(messages[..|messages| - 1]) && |messages[|messages| - 1]| <= MAX_MESSAGE
  {
  }

  lemma OneWrite(suite: Suite, keys: Keys, moves: seq<Move>, atA: bool, m: Bytes)
    requires Exec(suite, keys, moves).Some? && Exec(suite, keys, moves).value.Valid() && |m| <= MAX_MESSAGE
    ensures var r, after := Exec(suite, keys, moves).value, Exec(suite, keys, moves + Writes(atA, [m]));
            && after.Some? && End(after.value, atA) == Write(suite, End(r, atA), m)
            && End(after.value, !atA) == End(r, !atA)
  {
    hide Write;
    var next := moves + Writes(atA, [m]);
    assert next[..|next| - 1] == moves;
  }

  function Arrive(atA: bool, n: nat): Move {
    if atA then ToA(n) else ToB(n)
  }

  /** What an end holds when n more bytes have reached it. */
  function Reading(r: Run, atA: bool, n: nat): Stream
    requires r.Valid() && Enabled(r, Arrive(atA, n))
  {
    var s := End(r, atA);
    s.(input := s.input + if atA then r.b.sent[r.atA..r.atA + n] else r.a.sent[r.atB..r.atB + n])
  }

  lemma ReadingValid(r: Run, atA: bool, n: nat)
    requires r.Valid() && Enabled(r, Arrive(atA, n))
    ensures Reading(r, atA, n).Valid()
  {
    StillValid(End(r, atA), Reading(r, atA, n).input);
  }

  lemma ArriveDrains(suite: Suite, keys: Keys, moves: seq<Move>, r: Run, atA: bool, n: nat)
    requires Exec(suite, keys, moves) == Some(r)
    requires r.Valid() && Enabled(r, Arrive(atA, n)) && End(r, atA).act != ActNone
    ensures var read, after := Reading(r, atA, n), Exec(suite, keys, moves + [Arrive(atA, n)]);
            && read.Valid() && read.act != ActNone
            && after.Some? && End(after.value, atA) == Drain(suite, read) && End(after.value, !atA) == End(r, !atA)
            && (Failed in Drain(suite, read).events ==> Failed in after.value.a.events || Failed in after.value.b.events)
  {
    hide Drain, Stream.Valid, Begin;
    ReadingValid(r, atA, n);
    var next := moves + [Arrive(atA, n)];
    assert next[..|next| - 1] == moves;
  }

  /** Bytes arrive at one of two honest peers and its listeners answer each event at
      once: the state is that of the run in which the bytes arrive and the answers
      are written then.  So what holds of all runs holds with such listeners. */
  lemma AnswersAreMoves(suite: Suite, keys: Keys, moves: seq<Move>, atA: bool, n: nat,
                        reply: seq<Event> -> seq<Bytes>)
      returns (answers: seq<Bytes>)
    requires suite.Lawful() && keys.Valid(suite) && Exec(suite, keys, moves).Some?
    requires var r := Exec(suite, keys, moves).value;
             r.Valid() && Enabled(r, Arrive(atA, n)) && End(r, atA).act != ActNone
    requires forall events :: Small(reply(events))
    ensures var r := Exec(suite, keys, moves).value;
            var after := Exec(suite, keys, moves + [Arrive(atA, n)] + Writes(atA, answers));
            && Reading(r, atA, n).Valid()
            && after.Some? && End(after.value, !atA) == End(r, !atA)
            && End(after.value, atA) == DrainWith(suite, Reading(r, atA, n), reply)
  {
    var r := Exec(suite, keys, moves).value;
    var read, next := Reading(r, atA, n), moves + [Arrive(atA, n)];
    ArriveDrains(suite, keys, moves, r, atA, n);
    hide *;
    Delivery(suite, keys, next);
    DrainFails(suite, read);
    RepliesCanWait(suite, read, reply);
    answers := Replies(reply, Drain(suite, read).events, |read.events|);
    SmallReplies(reply, Drain(suite, read).events, |read.events|);
    WritesRun(suite, keys, next, atA, answers);
  }

  lemma {:induction false} SmallReplies(reply: seq<Event> -> seq<Bytes>, events: seq<Event>, k: nat)
    requires k <= |events| && forall es :: Small(reply(es))
    ensures Small(Replies(reply, events, k))
    decreases |events| - k
  {
    if k < |events| {
      SmallReplies(reply, events, k + 1);
      assert Small(reply(events[..k + 1]));
    }
  }
}
