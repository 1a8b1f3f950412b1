/**
 The Brontide handshake: three acts between an initiator, who knows the
 responder's public key, and the responder.  Cryptography is a parameter.
 */
module Brontide {
  import opened Primitives
  import opened Bytes32

  type Tag = s: Bytes | |s| == 16 witness seq(16, _ => 0)
  type Point = s: Bytes | |s| == 33 witness seq(33, _ => 0)
  type Uniform = s: Bytes | |s| == 64 witness seq(64, _ => 0)

  const ROTATION_INTERVAL := 1000
  const ACT_SIZE := 80
  const ACT_THREE_SIZE := 65
  const PROTOCOL_NAME := "Noise_XK_secp256k1_ChaChaPoly_SHA256+SVDW_Squared"
  const PROLOGUE := "hns"

  /** The primitives.  `Derive` and `FromUniform` fail on bytes that name no
      point; `Open` fails on a bad tag. */
  datatype Suite = Suite(
    Digest: Bytes -> Hash,
    Expand: (Bytes, Bytes) -> (Hash, Hash),
    Seal: (Hash, Bytes, Bytes, Bytes) -> (Bytes, Tag),
    Open: (Hash, Bytes, Bytes, Tag, Bytes) -> Option<Bytes>,
    IsKey: Hash -> bool,
    Public: Hash -> Point,
    Derive: (Point, Hash) -> Option<Bytes>,
    ToUniform: Point -> Uniform,
    FromUniform: Uniform -> Option<Point>)
  {
    /** Sealing and opening work in place: lengths never change. */
    ghost predicate Sized() {
      && (forall k, iv, pt, ad :: |Seal(k, iv, pt, ad).0| == |pt|)
      && (forall k, iv, ct, tag, ad ::
            Open(k, iv, ct, tag, ad).Some? ==> |Open(k, iv, ct, tag, ad).value| == |ct|)
    }

    /** What honest peers need: opening undoes sealing, Diffie-Hellman commutes,
        and the encoding of points can be inverted. */
    ghost predicate Lawful() {
      && Sized()
      && (forall k, iv, pt, ad ::
            Open(k, iv, Seal(k, iv, pt, ad).0, Seal(k, iv, pt, ad).1, ad) == Some(pt))
      && (forall a, b :: IsKey(a) && IsKey(b) ==>
            Derive(Public(a), b).Some? && Derive(Public(a), b) == Derive(Public(b), a))
      && (forall a :: IsKey(a) ==> FromUniform(ToUniform(Public(a))) == Some(Public(a)))
    }
  }

  // ---------------------------------------------------------------------
  // Ciphers
  // ---------------------------------------------------------------------

  datatype Cipher = Cipher(key: Hash, salt: Hash, nonce: nat)

  function Iv(nonce: nat): (iv: Bytes)
    ensures |iv| == 12
  {
    [0, 0, 0, 0] + U32(nonce) + [0, 0, 0, 0]
  }

  function Rotate(suite: Suite, c: Cipher): Cipher {
    var (salt, next) := suite.Expand(c.key, c.salt);
    Cipher(next, salt, 0)
  }

  /** A cipher after one use. */
  function Next(suite: Suite, c: Cipher): Cipher {
    if c.nonce + 1 == ROTATION_INTERVAL then Rotate(suite, c) else c.(nonce := c.nonce + 1)
  }

  /** A cipher after n uses. */
  function After(suite: Suite, c: Cipher, n: nat): Cipher {
    if n == 0 then c else Next(suite, After(suite, c, n - 1))
  }

  /** A cipher after n rotations. */
  function Rotations(suite: Suite, c: Cipher, n: nat): Cipher {
    if n == 0 then c else Rotate(suite, Rotations(suite, c, n - 1))
  }

  /** A fresh cipher rotates on exactly every thousandth use, so under one key
      the nonces are 0, 1, ..., 999, each used once. */
  lemma {:induction false} RotationSchedule(suite: Suite, c: Cipher, n: nat)
    requires c.nonce == 0
    ensures After(suite, c, n) == Rotations(suite, c, n / ROTATION_INTERVAL).(nonce := n % ROTATION_INTERVAL)
  {
    hide Rotate;
    if n > 0 {
      RotationSchedule(suite, c, n - 1);
      RotationsFresh(suite, c, n / ROTATION_INTERVAL);
      if n % ROTATION_INTERVAL == 0 {
        RotateIgnoresNonce(suite, Rotations(suite, c, n / ROTATION_INTERVAL - 1), ROTATION_INTERVAL - 1);
      }
    }
  }

  lemma RotationsFresh(suite: Suite, c: Cipher, n: nat)
    requires c.nonce == 0
    ensures Rotations(suite, c, n).nonce == 0
  {
  }

  lemma RotateIgnoresNonce(suite: Suite, c: Cipher, nonce: nat)
    ensures Rotate(suite, c.(nonce := nonce)) == Rotate(suite, c)
  {
  }

  /** Two uses under one key never share an initialisation vector. */
  lemma IvInjective(m: nat, n: nat)
    requires m < ROTATION_INTERVAL && n < ROTATION_INTERVAL
    requires Iv(m) == Iv(n)
    ensures m == n
  {
    assert Iv(m)[4..8] == U32(m) && Iv(n)[4..8] == U32(n);
    U32RoundTrip(m, []);
    U32RoundTrip(n, []);
    assert U32(m) + [] == U32(n) + [];
  }

  // ---------------------------------------------------------------------
  // The symmetric state and the three acts
  // ---------------------------------------------------------------------

  datatype Handshake = Handshake(
    cipher: Cipher,
    chain: Hash,
    temp: Hash,
    digest: Hash,
    initiator: bool,
    localStatic: Hash,
    localEphemeral: Hash,
    remoteStatic: Point,
    remoteEphemeral: Point,
    send: Cipher,
    recv: Cipher)

  const ZERO_POINT: Point := ZERO_HASH + [0]
  const ZERO_CIPHER := Cipher(ZERO_HASH, ZERO_HASH, 0)

  function Ascii(s: string): Bytes {
    seq(|s|, i requires 0 <= i < |s| => s[i] as int % 256)
  }

  function MixHash(suite: Suite, h: Handshake, data: Bytes): Handshake {
    h.(digest := suite.Digest(h.digest + data))
  }

  function MixKey(suite: Suite, h: Handshake, secret: Bytes): Handshake {
    var (chain, temp) := suite.Expand(secret, h.chain);
    h.(chain := chain, temp := temp, cipher := Cipher(temp, h.cipher.salt, 0))
  }

  function EncryptHash(suite: Suite, h: Handshake, pt: Bytes): (Handshake, Bytes, Tag) {
    var (ct, tag) := suite.Seal(h.cipher.key, Iv(h.cipher.nonce), pt, h.digest);
    (MixHash(suite, h, ct + tag).(cipher := Next(suite, h.cipher)), ct, tag)
  }

  function DecryptHash(suite: Suite, h: Handshake, ct: Bytes, tag: Tag): Option<(Handshake, Bytes)> {
    match suite.Open(h.cipher.key, Iv(h.cipher.nonce), ct, tag, h.digest)
    case None => None
    case Some(pt) => Some((MixHash(suite, h, ct + tag).(cipher := Next(suite, h.cipher)), pt))
  }

  /** Mixing in a Diffie-Hellman secret; fails when the point is no point. */
  function MixSecret(suite: Suite, h: Handshake, point: Point, key: Hash): Option<Handshake> {
    match suite.Derive(point, key)
    case None => None
    case Some(secret) => Some(MixKey(suite, h, suite.Digest(secret)))
  }

  function Init(suite: Suite, initiator: bool, local: Hash, remote: Point): Handshake {
    var name := suite.Digest(Ascii(PROTOCOL_NAME));
    var h := Handshake(ZERO_CIPHER, name, ZERO_HASH, name, initiator, local, ZERO_HASH,
                       if initiator then remote else ZERO_POINT, ZERO_POINT, ZERO_CIPHER, ZERO_CIPHER);
    MixHash(suite, MixHash(suite, h, Ascii(PROLOGUE)), if initiator then remote else suite.Public(local))
  }

  /** Acts one and two are written alike: a new ephemeral key, and a secret
      shared with one of the peer's points. */
  function GenAct(suite: Suite, h: Handshake, ephemeral: Hash, point: Point): Option<(Handshake, Bytes)> {
    var h0 := MixHash(suite, h.(localEphemeral := ephemeral), suite.Public(ephemeral));
    match MixSecret(suite, h0, point, ephemeral)
    case None => None
    case Some(h1) =>
      var (h2, ct, tag) := EncryptHash(suite, h1, []);
      Some((h2, suite.ToUniform(suite.Public(ephemeral)) + tag))
  }

  function RecvAct(suite: Suite, h: Handshake, act: Bytes, key: Hash): Option<Handshake> {
    if |act| != ACT_SIZE then None
    else
      match suite.FromUniform(act[..64])
      case None => None
      case Some(e) =>
        match MixSecret(suite, MixHash(suite, h.(remoteEphemeral := e), e), e, key)
        case None => None
        case Some(h1) =>
          match DecryptHash(suite, h1, [], act[64..])
          case None => None
          case Some(r) => Some(r.0)
  }

  function GenActOne(suite: Suite, h: Handshake, ephemeral: Hash): Option<(Handshake, Bytes)> {
    GenAct(suite, h, ephemeral, h.remoteStatic)
  }

  function RecvActOne(suite: Suite, h: Handshake, act: Bytes): Option<Handshake> {
    RecvAct(suite, h, act, h.localStatic)
  }

  function GenActTwo(suite: Suite, h: Handshake, ephemeral: Hash): Option<(Handshake, Bytes)> {
    GenAct(suite, h, ephemeral, h.remoteEphemeral)
  }

  function RecvActTwo(suite: Suite, h: Handshake, act: Bytes): Option<Handshake> {
    RecvAct(suite, h, act, h.localEphemeral)
  }

  function GenActThree(suite: Suite, h: Handshake): Option<(Handshake, Bytes)> {
    var (h0, ct, tag1) := EncryptHash(suite, h, suite.Public(h.localStatic));
    match MixSecret(suite, h0, h.remoteEphemeral, h.localStatic)
    case None => None
    case Some(h1) =>
      var (h2, _, tag2) := EncryptHash(suite, h1, []);
      Some((Split(suite, h2), ct + tag1 + tag2))
  }

  function RecvActThree(suite: Suite, h: Handshake, act: Bytes): Option<Handshake> {
    if |act| != ACT_THREE_SIZE then None
    else
      match DecryptHash(suite, h, act[..33], act[33..49])
      case None => None
      case Some(r) =>
        if |r.1| != 33 then None
        else
          match MixSecret(suite, r.0.(remoteStatic := r.1), r.1, h.localEphemeral)
          case None => None
          case Some(h1) =>
            match DecryptHash(suite, h1, [], act[49..65])
            case None => None
            case Some(end) => Some(Split(suite, end.0))
  }

  function Split(suite: Suite, h: Handshake): Handshake {
    var (h1, h2) := suite.Expand([], h.chain);
    var first, second := Cipher(h1, h.chain, 0), Cipher(h2, h.chain, 0);
    if h.initiator then h.(send := first, recv := second) else h.(send := second, recv := first)
  }

  // ---------------------------------------------------------------------
  // Agreement
  // ---------------------------------------------------------------------

  /** The two sides have the same transcript and the same keys. */
  predicate Agree(i: Handshake, r: Handshake) {
    i.cipher == r.cipher && i.chain == r.chain && i.temp == r.temp && i.digest == r.digest
  }

  /** What is sealed into the transcript on one side opens on the other. */
  lemma HashAgrees(suite: Suite, i: Handshake, r: Handshake, pt: Bytes)
    requires suite.Lawful() && Agree(i, r)
    ensures var (i', ct, tag) := EncryptHash(suite, i, pt);
            && |ct| == |pt|
            && DecryptHash(suite, r, ct, tag).Some?
            && Agree(i', DecryptHash(suite, r, ct, tag).value.0)
            && DecryptHash(suite, r, ct, tag).value.1 == pt
  {
  }

  /** An act written with one key of a pair is read with the other. */
  lemma ActAgrees(suite: Suite, g: Handshake, r: Handshake, ephemeral: Hash, key: Hash)
    requires suite.Lawful() && suite.IsKey(ephemeral) && suite.IsKey(key) && Agree(g, r)
    ensures GenAct(suite, g, ephemeral, suite.Public(key)).Some?
    ensures var (g', act) := GenAct(suite, g, ephemeral, suite.Public(key)).value;
            && |act| == ACT_SIZE
            && g' == g.(localEphemeral := ephemeral, cipher := g'.cipher, chain := g'.chain, temp := g'.temp,
                        digest := g'.digest)
            && RecvAct(suite, r, act, key).Some?
            && var r' := RecvAct(suite, r, act, key).value;
               Agree(g', r')
               && r' == r.(remoteEphemeral := suite.Public(ephemeral), cipher := r'.cipher, chain := r'.chain,
                           temp := r'.temp, digest := r'.digest)
  {
  }

  lemma ActThreeAgrees(suite: Suite, i: Handshake, r: Handshake)
    requires suite.Lawful() && suite.IsKey(i.localStatic) && suite.IsKey(r.localEphemeral) && Agree(i, r)
    requires i.remoteEphemeral == suite.Public(r.localEphemeral) && i.initiator && !r.initiator
    ensures GenActThree(suite, i).Some?
    ensures var (i', act) := GenActThree(suite, i).value;
            && |act| == ACT_THREE_SIZE
            && RecvActThree(suite, r, act).Some?
            && var r' := RecvActThree(suite, r, act).value;
               Agree(i', r') && r'.remoteStatic == suite.Public(i.localStatic)
               && i'.send == r'.recv && i'.recv == r'.send && i'.send.nonce == i'.recv.nonce == 0
               && i'.initiator && !r'.initiator
  {
    var point := suite.Public(i.localStatic);
    HashAgrees(suite, i, r, point);
    var (i0, ct, tag1) := EncryptHash(suite, i, point);
    var r0 := DecryptHash(suite, r, ct, tag1).value.0;
    var i1 := MixSecret(suite, i0, i.remoteEphemeral, i.localStatic).value;
    var r1 := MixSecret(suite, r0.(remoteStatic := point), point, r.localEphemeral).value;
    HashAgrees(suite, i1, r1, []);
    var (i2, none, tag2) := EncryptHash(suite, i1, []);
    var act := ct + tag1 + tag2;
    assert act[..33] == ct && act[33..49] == tag1 && act[49..65] == tag2 && none == [];
  }

  datatype Keys = Keys(initiatorStatic: Hash, initiatorEphemeral: Hash, responderStatic: Hash,
                       responderEphemeral: Hash)
  {
    predicate Valid(suite: Suite) {
      && suite.IsKey(initiatorStatic) && suite.IsKey(initiatorEphemeral)
      && suite.IsKey(responderStatic) && suite.IsKey(responderEphemeral)
    }
  }

  /** Both sides and the bytes on the wire after each act between honest peers. */
  datatype Acts = Acts(i0: Handshake, r0: Handshake, i1: Handshake, act1: Bytes, r1: Handshake,
                       r2: Handshake, act2: Bytes, i2: Handshake, i3: Handshake, act3: Bytes, r3: Handshake)

  predicate Honest(suite: Suite, keys: Keys, a: Acts) {
    && a.i0 == Init(suite, true, keys.initiatorStatic, suite.Public(keys.responderStatic))
    && a.r0 == Init(suite, false, keys.responderStatic, ZERO_POINT)
    && GenActOne(suite, a.i0, keys.initiatorEphemeral) == Some((a.i1, a.act1))
    && RecvActOne(suite, a.r0, a.act1) == Some(a.r1)
    && GenActTwo(suite, a.r1, keys.responderEphemeral) == Some((a.r2, a.act2))
    && RecvActTwo(suite, a.i1, a.act2) == Some(a.i2)
    && GenActThree(suite, a.i2) == Some((a.i3, a.act3))
    && RecvActThree(suite, a.r2, a.act3) == Some(a.r3)
  }

  /** Between honest peers every act is accepted; the transcripts and chaining
      keys agree after each act; the responder learns who is calling; and each
      side sends with the cipher the other side receives with. */
  lemma HandshakeAgrees(suite: Suite, keys: Keys) returns (a: Acts)
    requires suite.Lawful() && keys.Valid(suite)
    ensures Honest(suite, keys, a)
    ensures |a.act1| == |a.act2| == ACT_SIZE && |a.act3| == ACT_THREE_SIZE
    ensures Agree(a.i0, a.r0) && Agree(a.i1, a.r1) && Agree(a.i2, a.r2) && Agree(a.i3, a.r3)
    ensures a.r3.remoteStatic == suite.Public(keys.initiatorStatic)
    ensures a.i3.send == a.r3.recv && a.i3.recv == a.r3.send
    ensures a.i3.send.nonce == a.i3.recv.nonce == 0
    ensures a.i0.initiator && a.i1.initiator && !a.r0.initiator && !a.r2.initiator
  {
    hide GenAct, RecvAct, GenActThree, RecvActThree;
    var i0 := Init(suite, true, keys.initiatorStatic, suite.Public(keys.responderStatic));
    var r0 := Init(suite, false, keys.responderStatic, ZERO_POINT);
    ActAgrees(suite, i0, r0, keys.initiatorEphemeral, keys.responderStatic);
    var (i1, act1) := GenActOne(suite, i0, keys.initiatorEphemeral).value;
    var r1 := RecvActOne(suite, r0, act1).value;
    ActAgrees(suite, r1, i1, keys.responderEphemeral, keys.initiatorEphemeral);
    var (r2, act2) := GenActTwo(suite, r1, keys.responderEphemeral).value;
    var i2 := RecvActTwo(suite, i1, act2).value;
    ActThreeAgrees(suite, i2, r2);
    var (i3, act3) := GenActThree(suite, i2).value;
    a := Acts(i0, r0, i1, act1, r1, r2, act2, i2, i3, act3, RecvActThree(suite, r2, act3).value);
  }

  /** The secret of a key and another's public key. */
  function Shared(suite: Suite, owner: Hash, other: Hash): Bytes {
    var secret := suite.Derive(suite.Public(owner), other);
    if secret.Some? then suite.Digest(secret.value) else []
  }

  /** The three acts and the keys they end in, written out: each secret is mixed into
      the chaining key of the one before, everything that was said is authenticated by
      what follows, and no key seals twice under one nonce. */
  predicate Spoken(suite: Suite, keys: Keys, act1: Bytes, act2: Bytes, act3: Bytes, initiator: Cipher,
                   responder: Cipher) {
    var si, ei := suite.Public(keys.initiatorStatic), suite.Public(keys.initiatorEphemeral);
    var sr, er := suite.Public(keys.responderStatic), suite.Public(keys.responderEphemeral);
    var ck0 := suite.Digest(Ascii(PROTOCOL_NAME));
    var h0 := suite.Digest(suite.Digest(ck0 + Ascii(PROLOGUE)) + sr);
    var h1 := suite.Digest(h0 + ei);
    var (ck1, k1) := suite.Expand(Shared(suite, keys.responderStatic, keys.initiatorEphemeral), ck0);
    var tag1 := suite.Seal(k1, Iv(0), [], h1).1;
    var h2 := suite.Digest(h1 + tag1);
    var h3 := suite.Digest(h2 + er);
    var (ck2, k2) := suite.Expand(Shared(suite, keys.initiatorEphemeral, keys.responderEphemeral), ck1);
    var tag2 := suite.Seal(k2, Iv(0), [], h3).1;
    var h4 := suite.Digest(h3 + tag2);
    var (sealed, tag3) := suite.Seal(k2, Iv(1), si, h4);
    var h5 := suite.Digest(h4 + sealed + tag3);
    var (ck3, k3) := suite.Expand(Shared(suite, keys.responderEphemeral, keys.initiatorStatic), ck2);
    var tag4 := suite.Seal(k3, Iv(0), [], h5).1;
    var (k4, k5) := suite.Expand([], ck3);
    && act1 == suite.ToUniform(ei) + tag1
    && act2 == suite.ToUniform(er) + tag2
    && act3 == sealed + tag3 + tag4
    && initiator == Cipher(k4, ck3, 0) && responder == Cipher(k5, ck3, 0)
  }

  lemma SealedNothing(suite: Suite, h: Handshake)
    requires suite.Sized()
    ensures var (h', ct, tag) := EncryptHash(suite, h, []);
            && ct == [] && tag == suite.Seal(h.cipher.key, Iv(h.cipher.nonce), [], h.digest).1
            && h' == h.(digest := suite.Digest(h.digest + tag), cipher := Next(suite, h.cipher))
  {
    var (ct, tag) := suite.Seal(h.cipher.key, Iv(h.cipher.nonce), [], h.digest);
    assert ct == [] && ct + tag == tag;
  }

  /** One act, from the digest and the chaining key before it. */
  lemma ActSpoken(suite: Suite, h: Handshake, ephemeral: Hash, owner: Hash)
    requires suite.Lawful() && suite.IsKey(ephemeral) && suite.IsKey(owner)
    ensures GenAct(suite, h, ephemeral, suite.Public(owner)).Some?
    ensures var (h', act) := GenAct(suite, h, ephemeral, suite.Public(owner)).value;
            var (chain, key) := suite.Expand(Shared(suite, owner, ephemeral), h.chain);
            var digest := suite.Digest(h.digest + suite.Public(ephemeral));
            var tag := suite.Seal(key, Iv(0), [], digest).1;
            && act == suite.ToUniform(suite.Public(ephemeral)) + tag
            && h'.chain == chain && h'.cipher.key == key && h'.cipher.nonce == 1
            && h'.digest == suite.Digest(digest + tag)
  {
    var h1 := MixSecret(suite, MixHash(suite, h.(localEphemeral := ephemeral), suite.Public(ephemeral)),
                        suite.Public(owner), ephemeral).value;
    SealedNothing(suite, h1);
  }

  /** What honest peers say, and the keys they end with. */
  lemma HandshakeSpoken(suite: Suite, keys: Keys, a: Acts)
    requires suite.Lawful() && keys.Valid(suite) && Honest(suite, keys, a)
    ensures Spoken(suite, keys, a.act1, a.act2, a.act3, a.i3.send, a.i3.recv)
  {
    hide GenAct, RecvAct, GenActThree, RecvActThree;
    ActAgrees(suite, a.i0, a.r0, keys.initiatorEphemeral, keys.responderStatic);
    ActSpoken(suite, a.i0, keys.initiatorEphemeral, keys.responderStatic);
    ActAgrees(suite, a.r1, a.i1, keys.responderEphemeral, keys.initiatorEphemeral);
    ActSpoken(suite, a.r1, keys.responderEphemeral, keys.initiatorEphemeral);
    LastActSpoken(suite, a.i2, keys.responderEphemeral);
  }

  /** The last act, and the split into two keys. */
  lemma LastActSpoken(suite: Suite, h: Handshake, owner: Hash)
    requires suite.Lawful() && suite.IsKey(h.localStatic) && suite.IsKey(owner)
    requires h.initiator && h.remoteEphemeral == suite.Public(owner) && h.cipher.nonce == 1
    ensures GenActThree(suite, h).Some?
    ensures var (h', act) := GenActThree(suite, h).value;
            var (sealed, tag1) := suite.Seal(h.cipher.key, Iv(1), suite.Public(h.localStatic), h.digest);
            var digest := suite.Digest(h.digest + sealed + tag1);
            var (chain, key) := suite.Expand(Shared(suite, owner, h.localStatic), h.chain);
            var tag2 := suite.Seal(key, Iv(0), [], digest).1;
            var (k4, k5) := suite.Expand([], chain);
            && act == sealed + tag1 + tag2
            && h'.send == Cipher(k4, chain, 0) && h'.recv == Cipher(k5, chain, 0)
  {
    var (h0, sealed, tag1) := EncryptHash(suite, h, suite.Public(h.localStatic));
    assert h.digest + (sealed + tag1) == h.digest + sealed + tag1;
    SealedNothing(suite, MixSecret(suite, h0, h.remoteEphemeral, h.localStatic).value);
  }
}
