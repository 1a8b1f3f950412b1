/**
 The objects behind the handshake and the stream.  Buffers are encrypted and
 decrypted in place; every method is tied to the functions of `Brontide` and
 `BrontideRuns`.
 */
module BrontideStream {
  import opened Primitives
  import opened Bytes32
  import opened Pieces
  import opened Brontide
  import opened BrontideRuns

  method CopyInto(target: array<Byte>, data: Bytes)
    requires target.Length == |data|
    modifies target
    ensures target[..] == data
  {
    forall i | 0 <= i < target.Length { target[i] := data[i]; }
  }

  class CipherState {
    const suite: Suite
    var nonce: nat
    var iv: Bytes
    var key: Hash
    var salt: Hash

    ghost function Value(): Cipher
      reads this
    {
      Cipher(key, salt, nonce)
    }

    /** The vector always carries the nonce, which never reaches 1000. */
    ghost predicate Valid()
      reads this
    {
      suite.Sized() && iv == Iv(nonce) && nonce < ROTATION_INTERVAL
    }

    constructor (suite: Suite)
      requires suite.Sized()
      ensures this.suite == suite && Valid() && Value() == ZERO_CIPHER
    {
      this.suite := suite;
      nonce, key, salt := 0, ZERO_HASH, ZERO_HASH;
      iv := Iv(0);
    }

    method Update()
      modifies this`iv
      ensures iv == Iv(nonce)
    {
      iv := Iv(nonce);
    }

    method InitKey(key: Hash)
      requires suite.Sized()
      modifies this`key, this`nonce, this`iv
      ensures Valid() && Value() == Cipher(key, salt, 0)
    {
      this.key := key;
      nonce := 0;
      Update();
    }

    method InitSalt(key: Hash, salt: Hash)
      requires suite.Sized()
      modifies this
      ensures Valid() && Value() == Cipher(key, salt, 0)
    {
      this.salt := salt;
      InitKey(key);
    }

    method RotateKey()
      requires suite.Sized()
      modifies this
      ensures Valid() && Value() == Rotate(suite, old(Value()))
    {
      var (salt, next) := suite.Expand(key, this.salt);
      this.salt := salt;
      InitKey(next);
    }

    method Encrypt(pt: array<Byte>, ad: Bytes) returns (tag: Tag)
      requires Valid()
      modifies this, pt
      ensures Valid() && Value() == Next(suite, old(Value()))
      ensures (pt[..], tag) == suite.Seal(old(key), Iv(old(nonce)), old(pt[..]), ad)
    {
      var sealed := suite.Seal(key, iv, pt[..], ad);
      tag := sealed.1;
      CopyInto(pt, sealed.0);
      nonce := nonce + 1;
      Update();
      if nonce == ROTATION_INTERVAL {
        RotateKey();
      }
    }

    method Decrypt(ct: array<Byte>, tag: Tag, ad: Bytes) returns (ok: bool)
      requires Valid()
      modifies this, ct
      ensures var plain := suite.Open(old(key), Iv(old(nonce)), old(ct[..]), tag, ad);
              Valid() && ok == plain.Some?
              && (ok ==> ct[..] == plain.value && Value() == Next(suite, old(Value())))
              && (!ok ==> ct[..] == old(ct[..]) && Value() == old(Value()))
    {
      var plain := suite.Open(key, iv, ct[..], tag, ad);
      if plain.None? {
        return false;
      }
      CopyInto(ct, plain.value);
      nonce := nonce + 1;
      Update();
      if nonce == ROTATION_INTERVAL {
        RotateKey();
      }
      return true;
    }
  }

  class HandshakeState {
    const suite: Suite
    const cipher: CipherState
    const sendCipher: CipherState
    const recvCipher: CipherState
    var chain: Hash
    var temp: Hash
    var digest: Hash
    var initiator: bool
    var localStatic: Hash
    var localEphemeral: Hash
    var remoteStatic: Point
    var remoteEphemeral: Point
    ghost const Repr: set<object>

    ghost predicate Valid()
      reads this, Repr
    {
      && Repr == {this, cipher, sendCipher, recvCipher}
      && cipher != sendCipher && cipher != recvCipher && sendCipher != recvCipher
      && cipher.suite == sendCipher.suite == recvCipher.suite == suite
      && cipher.Valid() && sendCipher.Valid() && recvCipher.Valid()
    }

    ghost function Value(): Handshake
      requires Valid()
      reads this, Repr
    {
      Handshake(cipher.Value(), chain, temp, digest, initiator, localStatic, localEphemeral, remoteStatic,
                remoteEphemeral, sendCipher.Value(), recvCipher.Value())
    }

    constructor (suite: Suite, initiator: bool, local: Hash, remote: Point)
      requires suite.Sized()
      ensures this.suite == suite && Valid() && fresh(Repr)
      ensures Value() == Init(suite, initiator, local, remote)
    {
      this.suite := suite;
      var c := new CipherState(suite);
      var s := new CipherState(suite);
      var r := new CipherState(suite);
      cipher, sendCipher, recvCipher := c, s, r;
      Repr := {this, c, s, r};
      this.initiator, localStatic, localEphemeral := initiator, local, ZERO_HASH;
      remoteStatic := if initiator then remote else ZERO_POINT;
      remoteEphemeral := ZERO_POINT;
      digest := suite.Digest(Ascii(PROTOCOL_NAME));
      chain, temp := suite.Digest(Ascii(PROTOCOL_NAME)), ZERO_HASH;
      new;
      MixHash(Ascii(PROLOGUE));
      MixHash(if initiator then remote else suite.Public(local));
    }

    method MixHash(data: Bytes)
      requires Valid()
      modifies this`digest
      ensures Valid() && Value() == Brontide.MixHash(suite, old(Value()), data)
    {
      digest := suite.Digest(digest + data);
    }

    method MixKey(input: Bytes)
      requires Valid()
      modifies this`chain, this`temp, cipher
      ensures Valid() && Value() == Brontide.MixKey(suite, old(Value()), input)
    {
      var (chain, temp) := suite.Expand(input, this.chain);
      this.chain, this.temp := chain, temp;
      cipher.InitKey(temp);
    }

    method EncryptHash(pt: array<Byte>) returns (tag: Tag)
      requires Valid() && pt !in Repr
      modifies this`digest, cipher, pt
      ensures Valid() && (Value(), pt[..], tag) == Brontide.EncryptHash(suite, old(Value()), old(pt[..]))
    {
      tag := cipher.Encrypt(pt, digest);
      MixHash(pt[..] + tag);
    }

    method DecryptHash(ct: array<Byte>, tag: Tag) returns (ok: bool)
      requires Valid() && ct !in Repr
      modifies this`digest, cipher, ct
      ensures Valid()
      ensures var r := Brontide.DecryptHash(suite, old(Value()), old(ct[..]), tag);
              ok == r.Some? && (ok ==> (Value(), ct[..]) == r.value)
    {
      var mixed := suite.Digest(digest + (ct[..] + tag));
      ok := cipher.Decrypt(ct, tag, digest);
      if !ok {
        return;
      }
      digest := mixed;
    }

    /** `mixKey(ecdh(point, key))`; false when the point is no point. */
    method MixSecret(point: Point, key: Hash) returns (ok: bool)
      requires Valid()
      modifies this`chain, this`temp, cipher
      ensures Valid()
      ensures var r := Brontide.MixSecret(suite, old(Value()), point, key);
              ok == r.Some? && (ok ==> Value() == r.value)
    {
      var secret := suite.Derive(point, key);
      if secret.None? {
        return false;
      }
      MixKey(suite.Digest(secret.value));
      return true;
    }

    method GenAct(ephemeral: Hash, point: Point) returns (act: Option<Bytes>)
      requires Valid()
      modifies this, cipher
      ensures Valid()
      ensures var r := Brontide.GenAct(suite, old(Value()), ephemeral, point);
              act.Some? == r.Some? && (act.Some? ==> (Value(), act.value) == r.value)
    {
      localEphemeral := ephemeral;
      MixHash(suite.Public(ephemeral));
      var ok := MixSecret(point, ephemeral);
      if !ok {
        return None;
      }
      var empty := new Byte[0];
      assert empty[..] == [];
      var tag := EncryptHash(empty);
      return Some(suite.ToUniform(suite.Public(ephemeral)) + tag);
    }

    method RecvAct(act: Bytes, key: Hash) returns (ok: bool)
      requires Valid()
      modifies this, cipher
      ensures Valid()
      ensures var r := Brontide.RecvAct(suite, old(Value()), act, key);
              ok == r.Some? && (ok ==> Value() == r.value)
    {
      if |act| != ACT_SIZE {
        return false;
      }
      var e := suite.FromUniform(act[..64]);
      if e.None? {
        return false;
      }
      remoteEphemeral := e.value;
      MixHash(remoteEphemeral);
      ok := MixSecret(remoteEphemeral, key);
      if !ok {
        return;
      }
      var empty := new Byte[0];
      assert empty[..] == [];
      ok := DecryptHash(empty, act[64..]);
    }

    method GenActThree() returns (act: Option<Bytes>)
      requires Valid()
      modifies Repr
      ensures Valid()
      ensures var r := Brontide.GenActThree(suite, old(Value()));
              act.Some? == r.Some? && (act.Some? ==> (Value(), act.value) == r.value)
    {
      var ours := new Byte[33](_ => 0);
      CopyInto(ours, suite.Public(localStatic));
      var tag1 := EncryptHash(ours);
      var ok := MixSecret(remoteEphemeral, localStatic);
      if !ok {
        return None;
      }
      var empty := new Byte[0];
      assert empty[..] == [];
      var tag2 := EncryptHash(empty);
      Split();
      return Some(ours[..] + tag1 + tag2);
    }

    method RecvActThree(act: Bytes) returns (ok: bool)
      requires Valid()
      modifies Repr
      ensures Valid()
      ensures var r := Brontide.RecvActThree(suite, old(Value()), act);
              ok == r.Some? && (ok ==> Value() == r.value)
    {
      hide Brontide.DecryptHash, Brontide.MixSecret, Brontide.Split, CipherState.Valid;
      if |act| != ACT_THREE_SIZE {
        return false;
      }
      var s1 := new Byte[33](_ => 0);
      CopyInto(s1, act[..33]);
      ok := DecryptHash(s1, act[33..49]);
      if !ok {
        return;
      }
      remoteStatic := s1[..];
      ok := MixSecret(remoteStatic, localEphemeral);
      if !ok {
        return;
      }
      var empty := new Byte[0];
      assert empty[..] == [];
      ok := DecryptHash(empty, act[49..65]);
      if !ok {
        return;
      }
      Split();
    }

    method Split()
      requires Valid()
      modifies sendCipher, recvCipher
      ensures Valid() && Value() == Brontide.Split(suite, old(Value()))
    {
      var (h1, h2) := suite.Expand([], chain);
      if initiator {
        sendCipher.InitSalt(h1, chain);
        recvCipher.InitSalt(h2, chain);
      } else {
        recvCipher.InitSalt(h1, chain);
        sendCipher.InitSalt(h2, chain);
      }
    }
  }

  /** Equal, except that the keys of a failed stream, which are never used again,
      do not matter. */
  ghost predicate Alike(s: Stream, t: Stream) {
    s == t.(h := s.h) && (s.h == t.h || (t.act == ActNone && Failed in t.events))
  }

  lemma SendParts(suite: Suite, s: Stream, m: Bytes)
    requires s.Valid()
    ensures var c1 := Next(suite, s.h.send);
            var (size, tag1) := suite.Seal(s.h.send.key, Iv(s.h.send.nonce), U32(|m|), []);
            var (body, tag2) := suite.Seal(c1.key, Iv(c1.nonce), m, []);
            Send(suite, s, m) == s.(h := s.h.(send := Next(suite, c1)), sent := s.sent + size + tag1 + body + tag2)
    ensures Send(suite, s, m).Valid()
  {
    hide Next, Iv, U32;
  }

  /** An act for the other role is an assertion that fails. */
  lemma Misplaced(suite: Suite, s: Stream, chunk: Bytes)
    ensures (if s.h.initiator then s.act == ActOne || s.act == ActThree else s.act == ActTwo) ==>
              BrontideRuns.ParseHandshake(suite, s, chunk) == Destroyed(s)
  {
  }

  class EncryptedStream {
    const peer: HandshakeState
    const ephemeral: Hash
    var state: Act
    var pending: seq<Bytes>
    var total: nat
    var waiting: nat
    var hasSize: bool
    var buffer: seq<Bytes>
    var sent: Bytes
    var events: seq<Event>

    ghost predicate Frame()
      reads this, peer, peer.Repr
    {
      peer.Valid() && this !in peer.Repr && total == |Concat(pending)|
    }

    ghost predicate Valid()
      reads this, peer, peer.Repr
    {
      Frame() && Value().Valid()
    }

    ghost function Value(): Stream
      requires Frame()
      reads this, peer, peer.Repr
    {
      Stream(peer.Value(), ephemeral, state, Concat(pending), waiting, hasSize, buffer, sent, events)
    }

    /** A stream that is not connected yet. */
    constructor (suite: Suite, initiator: bool, local: Hash, remote: Point, ephemeral: Hash)
      requires suite.Sized()
      ensures peer.suite == suite && fresh(peer) && fresh(peer.Repr) && Valid()
      ensures Value() == Idle(Init(suite, initiator, local, remote), ephemeral)
    {
      var p := new HandshakeState(suite, initiator, local, remote);
      peer, this.ephemeral := p, ephemeral;
      state, pending, total, waiting, hasSize, buffer, sent, events := ActNone, [], 0, 0, false, [], [], [];
    }

    method Start()
      requires Valid() && state == ActNone && Value().input == [] && !hasSize
      modifies this, peer.Repr
      ensures Valid() && Alike(Value(), BrontideRuns.Start(peer.suite, old(Value())))
    {
      hide Brontide.GenAct;
      if peer.initiator {
        state := ActTwo;
        waiting := ACT_SIZE;
        var act := peer.GenAct(ephemeral, peer.remoteStatic);
        if act.None? {
          Destroy();
          return;
        }
        sent := sent + act.value;
      } else {
        state := ActOne;
        waiting := ACT_SIZE;
      }
    }

    method Destroy()
      requires Frame()
      modifies this
      ensures Valid() && Value() == Destroyed(old(Value()))
    {
      state := ActNone;
      pending := [];
      total := 0;
      waiting := 0;
      hasSize := false;
      buffer := [];
      events := events + [Failed];
    }
  
    /** Encrypts in place, and writes the result and its tag. */
    method SendSealed(data: array<Byte>)
      requires Frame() && data !in peer.Repr
      modifies this`sent, peer.sendCipher, data
      ensures var s, c := old(Value()), old(Value()).h.send;
              var (ct, tag) := peer.suite.Seal(c.key, Iv(c.nonce), old(data[..]), []);
              && Frame()
              && Value() == s.(h := s.h.(send := Next(peer.suite, c)), sent := s.sent + ct + tag)
    {
      hide Next, Iv, Concat;
      var tag := peer.sendCipher.Encrypt(data, []);
      sent := sent + data[..];
      sent := sent + tag;
    }

    method SendNow(data: array<Byte>)
      requires Valid() && state == ActDone && data !in peer.Repr && data.Length < U32_LIMIT
      modifies this`sent, peer.sendCipher, data
      ensures Valid() && Value() == Send(peer.suite, old(Value()), old(data[..]))
    {
      hide Next, Iv, U32, Concat, Stream.Valid, HandshakeState.Valid;
      ghost var before := Value();
      var len := new Byte[4](_ => 0);
      CopyInto(len, U32(data.Length));
      SendSealed(len);
      SendSealed(data);
      SendParts(peer.suite, before, old(data[..]));
    }

    /** Data written before the handshake is over waits; data written to a stream
        that is not connected is dropped. */
    method Write(data: array<Byte>) returns (written: bool)
      requires Valid() && data !in peer.Repr && data.Length < U32_LIMIT && Sendable()
      modifies this`sent, this`buffer, peer.sendCipher, data
      ensures Valid() && Sendable() && written == (state == ActDone)
      ensures Value() == BrontideRuns.Write(peer.suite, old(Value()), old(data[..]))
    {
      hide BrontideRuns.Send;
      if state == ActNone {
        return false;
      }
      if state != ActDone {
        buffer := buffer + [data[..]];
        return false;
      }
      SendNow(data);
      return true;
    }

    ghost predicate Sendable()
      reads this`buffer
    {
      forall i :: 0 <= i < |buffer| ==> |buffer[i]| < U32_LIMIT
    }

    method Unleash()
      requires Frame() && state == ActDone && waiting == HEADER_SIZE && !hasSize && Sendable()
      modifies this`sent, this`buffer, peer.sendCipher
      ensures Valid()
      ensures Value() == SendAll(peer.suite, old(Value()), old(buffer)).(queue := [])
    {
      hide BrontideRuns.Send;
      ghost var end := SendAll(peer.suite, Value(), buffer);
      var i := 0;
      assert buffer[0..] == buffer;
      while i < |buffer|
        invariant 0 <= i <= |buffer| && buffer == old(buffer) && Valid()
        invariant SendAll(peer.suite, Value(), buffer[i..]) == end
      {
        var data := new Byte[|buffer[i]|](_ => 0);
        CopyInto(data, buffer[i]);
        assert buffer[i..][1..] == buffer[i + 1..];
        SendNow(data);
        i := i + 1;
      }
      buffer := [];
    }
  
    /** The handshake is over. */
    method Finish()
      requires Frame() && !hasSize && Sendable()
      modifies this, peer.sendCipher
      ensures Valid() && Sendable() && state == ActDone
      ensures Value() == BrontideRuns.Unleash(peer.suite, old(Value()))
    {
      hide SendAll, Concat;
      state := ActDone;
      waiting := HEADER_SIZE;
      Unleash();
      events := events + [Connected];
    }

    method ReadActOne(data: Bytes) returns (ok: bool)
      requires Valid() && state == ActOne && !peer.initiator && |data| == waiting
      modifies this, peer.Repr
      ensures Frame() && events == old(events) && buffer == old(buffer)
      ensures var t := BrontideRuns.ParseHandshake(peer.suite, old(Value()), data);
              if ok then Value() == t && state == ActThree
              else t == Destroyed(old(Value())) && sent == old(sent)
    {
      hide Brontide.GenAct, Brontide.RecvAct, Concat;
      ok := peer.RecvAct(data, peer.localStatic);
      if !ok { return; }
      var act := peer.GenAct(ephemeral, peer.remoteEphemeral);
      if act.None? { return false; }
      sent := sent + act.value;
      state := ActThree;
      waiting := ACT_THREE_SIZE;
    }

    method ReadActTwo(data: Bytes) returns (ok: bool)
      requires Valid() && Sendable() && state == ActTwo && peer.initiator && |data| == waiting
      modifies this, peer.Repr
      ensures Frame() && Sendable()
      ensures var t := BrontideRuns.ParseHandshake(peer.suite, old(Value()), data);
              if ok then Valid() && Value() == t && state == ActDone
              else t == Destroyed(old(Value())) && sent == old(sent) && events == old(events)
    {
      hide Brontide.GenActThree, Brontide.RecvAct, BrontideRuns.Unleash, Concat;
      ok := peer.RecvAct(data, peer.localEphemeral);
      if !ok { return; }
      var act := peer.GenActThree();
      if act.None? { return false; }
      sent := sent + act.value;
      Finish();
    }

    method ReadActThree(data: Bytes) returns (ok: bool)
      requires Valid() && Sendable() && state == ActThree && !peer.initiator && |data| == waiting
      modifies this, peer.Repr
      ensures Frame() && Sendable()
      ensures var t := BrontideRuns.ParseHandshake(peer.suite, old(Value()), data);
              if ok then Valid() && Value() == t && state == ActDone
              else t == Destroyed(old(Value())) && sent == old(sent) && events == old(events)
    {
      hide Brontide.RecvActThree, BrontideRuns.Unleash, Concat;
      ok := peer.RecvActThree(data);
      if !ok { return; }
      Finish();
    }

    /** Bytes and tag, opened in place. */
    method OpenChunk(data: Bytes) returns (plain: Option<Bytes>)
      requires Frame() && |data| >= 16
      modifies peer.recvCipher
      ensures Frame()
      ensures var c, n := old(Value()).h.recv, |data| - 16;
              && plain == peer.suite.Open(c.key, Iv(c.nonce), data[..n], data[n..], [])
              && (plain.Some? ==> |plain.value| == n)
              && var h := old(Value()).h;
                 Value() == old(Value()).(h := if plain.Some? then h.(recv := Next(peer.suite, c)) else h)
    {
      hide Next, Iv, Concat;
      var n := |data| - 16;
      var payload := new Byte[n](_ => 0);
      CopyInto(payload, data[..n]);
      var ok := peer.recvCipher.Decrypt(payload, data[n..], []);
      return if ok then Some(payload[..]) else None;
    }

    method ReadFrame(data: Bytes) returns (ok: bool)
      requires Valid() && Sendable() && state == ActDone && |data| == waiting
      modifies this`hasSize, this`waiting, this`events, peer.recvCipher
      ensures Frame() && (ok ==> Valid())
      ensures var t := BrontideRuns.ParseFrame(peer.suite, old(Value()), data);
              if ok then Value() == t
              else t == Destroyed(old(Value())).(h := t.h) && events == old(events)
    {
      hide Next, Iv, Concat, ReadU32, HandshakeState.Valid;
      if !hasSize {
        var len := OpenChunk(data);
        if len.None? || ReadU32(len.value) > MAX_MESSAGE { return false; }
        hasSize := true;
        waiting := ReadU32(len.value) + 16;
        return true;
      }
      var payload := OpenChunk(data);
      hasSize := false;
      waiting := HEADER_SIZE;
      if payload.None? { return false; }
      events := events + [Data(payload.value)];
      return true;
    }

    /** One complete chunk; anything thrown destroys the stream. */
    method Parse(data: Bytes) returns (ok: bool)
      requires Valid() && Sendable() && state != ActNone && |data| == waiting
      modifies this, peer.Repr
      ensures Valid() && Sendable() && ok == (state != ActNone)
      ensures Alike(Value(), BrontideRuns.Parse(peer.suite, old(Value()), data))
    {
      hide BrontideRuns.ParseHandshake, BrontideRuns.ParseFrame, Concat;
      ParseValid(peer.suite, Value(), data);
      Misplaced(peer.suite, Value(), data);
      if peer.initiator && state == ActTwo {
        ok := ReadActTwo(data);
      } else if !peer.initiator && state == ActOne {
        ok := ReadActOne(data);
      } else if !peer.initiator && state == ActThree {
        ok := ReadActThree(data);
      } else if state == ActDone {
        ok := ReadFrame(data);
      } else {
        ok := false;
      }
      if !ok {
        Destroy();
      }
    }
  
    /** The next `size` bytes of what is pending. */
    method Read(size: nat) returns (chunk: Bytes)
      requires total == |Concat(pending)| && size <= total
      modifies this`pending, this`total
      ensures chunk == old(Concat(pending))[..size] && Concat(pending) == old(Concat(pending))[size..]
      ensures total == |Concat(pending)|
    {
      if size == 0 {
        return [];
      }
      var piece := pending[0];
      assert pending == [piece] + pending[1..];
      ConcatHead(piece, pending[1..]);
      ConcatHead(piece[if size <= |piece| then size else 0..], pending[1..]);
      if |piece| > size {
        chunk := piece[..size];
        pending := pending[0 := piece[size..]];
        assert pending == [piece[size..]] + old(pending)[1..];
        total := total - size;
        return;
      }
      if |piece| == size {
        chunk := piece;
        pending := pending[1..];
        total := total - size;
        return;
      }
      var buf, left := Take(pending, size);
      chunk, pending := buf[..], left;
      total := total - size;
    }

    method Feed(data: Bytes)
      requires Valid() && Sendable()
      modifies this, peer.Repr
      ensures Valid() && Sendable()
      ensures Alike(Value(), BrontideRuns.Feed(peer.suite, old(Value()), data))
    {
      hide BrontideRuns.Parse, Concat, Stream.Valid;
      if state == ActNone {
        return;
      }
      ghost var all := Value().(input := Value().input + data);
      StillValid(Value(), all.input);
      ConcatSnoc(pending, data);
      total := total + |data|;
      pending := pending + [data];
      while total >= waiting
        invariant Valid() && Sendable() && state != ActNone
        invariant all.Valid() && Drain(peer.suite, all) == Drain(peer.suite, Value())
        decreases total
      {
        ghost var before := Value();
        StepShrinks(peer.suite, before);
        var chunk := Read(waiting);
        StillValid(before, Value().input);
        assert Value() == before.(input := before.input[before.waiting..]);
        var ok := Parse(chunk);
        if !ok {
          break;
        }
      }
    }
  }
}
