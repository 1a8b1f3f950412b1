/**
 Mnemonic phrases: entropy and its checksum, cut into groups of eleven bits
 that choose words.
 */
module Mnemonic {
  import opened Primitives
  import opened Bits

  const MIN_ENTROPY := 128
  const MAX_ENTROPY := 512

  /** A list of 2048 different words. */
  predicate IsWordlist(list: seq<string>) {
    |list| == 2048 && forall i, j :: 0 <= i < j < |list| ==> list[i] != list[j]
  }

  // ---------------------------------------------------------------------
  // Groups of eleven
  // ---------------------------------------------------------------------

  /** The number made of the first k bits of the i-th group. */
  function Index(data: Bytes, i: nat, k: nat): (n: nat)
    requires k <= 11 && 11 * i + k <= 8 * |data|
    ensures n < Pow2(k)
  {
    if k == 0 then 0
    else 2 * Index(data, i, k - 1) + if BitAt(data, 11 * i + k - 1) then 1 else 0
  }

  lemma {:induction false} IndexBits(data: Bytes, i: nat, k: nat, j: nat)
    requires j < k <= 11 && 11 * i + k <= 8 * |data|
    ensures Bit(Index(data, i, k), k - 1 - j) <==> BitAt(data, 11 * i + j)
  {
    hide BitAt;
    if j < k - 1 {
      assert Index(data, i, k) / 2 == Index(data, i, k - 1);
      IndexBits(data, i, k - 1, j);
    }
  }

  /** Bit `pos` of a row of indexes. */
  predicate StreamBit(indexes: seq<nat>, pos: nat)
    requires pos < 11 * |indexes|
  {
    Bit(indexes[pos / 11], 10 - pos % 11)
  }

  /** How many of the bits of n words are checksum. */
  function ChecksumBits(n: nat): nat { 11 * n % 32 }

  function EntropyBits(n: nat): nat { 11 * n - ChecksumBits(n) }

  predicate GoodLength(n: nat) {
    ChecksumBits(n) != 0 && MIN_ENTROPY <= EntropyBits(n) <= MAX_ENTROPY
  }

  /** The words say the entropy, and then the first bits of its digest. */
  ghost predicate Says(indexes: seq<nat>, entropy: Bytes, digest: Bytes -> Hash) {
    var bits := EntropyBits(|indexes|);
    && 8 * |entropy| == bits
    && (forall pos :: 0 <= pos < bits ==> (BitAt(entropy, pos) <==> StreamBit(indexes, pos)))
    && (forall pos :: 0 <= pos < ChecksumBits(|indexes|) ==>
          (BitAt(digest(entropy), pos) <==> StreamBit(indexes, bits + pos)))
  }

  lemma SaysOne(indexes: seq<nat>, a: Bytes, b: Bytes, digest: Bytes -> Hash)
    requires Says(indexes, a, digest) && Says(indexes, b, digest)
    ensures a == b
  {
    forall pos | 0 <= pos < 8 * |a| ensures BitAt(a, pos) <==> BitAt(b, pos) {
      assert BitAt(a, pos) == StreamBit(indexes, pos) == BitAt(b, pos);
    }
    SameBuffers(a, b);
  }

  predicate FromList(list: seq<string>, words: seq<string>, indexes: seq<nat>) {
    |words| == |indexes| && forall i :: 0 <= i < |words| ==> indexes[i] < |list| && words[i] == list[indexes[i]]
  }

  // ---------------------------------------------------------------------
  // Entropy to words
  // ---------------------------------------------------------------------

  predicate IsEntropy(entropy: Bytes) {
    MIN_ENTROPY <= 8 * |entropy| <= MAX_ENTROPY && |entropy| % 4 == 0
  }

  method ReadGroup(data: Bytes, i: nat) returns (index: nat)
    requires 11 * i + 11 <= 8 * |data|
    ensures index == Index(data, i, 11) && index < 2048
  {
    BytePower();
    index := 0;
    for j := 0 to 11
      invariant index == Index(data, i, j)
    {
      var pos := i * 11 + j;
      index := 2 * index + if Bit(data[pos / 8], 7 - pos % 8) then 1 else 0;
    }
  }

  /** The buffer that is cut up: the entropy and enough of its digest. */
  function Buffer(entropy: Bytes, chk: Hash): (data: Bytes)
    requires IsEntropy(entropy)
    ensures 8 * |data| >= 8 * |entropy| + |entropy| / 4
  {
    entropy + chk[..(|entropy| / 4 + 7) / 8]
  }

  lemma GroupsSay(data: Bytes, indexes: seq<nat>)
    requires 11 * |indexes| <= 8 * |data|
    requires forall g :: 0 <= g < |indexes| ==> indexes[g] == Index(data, g, 11)
    ensures forall pos :: 0 <= pos < 11 * |indexes| ==> (StreamBit(indexes, pos) <==> BitAt(data, pos))
  {
    hide Bit, BitAt, Index;
    forall pos | 0 <= pos < 11 * |indexes| ensures StreamBit(indexes, pos) <==> BitAt(data, pos) {
      IndexBits(data, pos / 11, 11, pos % 11);
    }
  }

  /** Two buffers side by side. */
  lemma BitsOfBoth(a: Bytes, b: Bytes)
    ensures forall pos :: 0 <= pos < 8 * |a| ==> (BitAt(a + b, pos) <==> BitAt(a, pos))
    ensures forall pos :: 0 <= pos < 8 * |b| ==> (BitAt(a + b, 8 * |a| + pos) <==> BitAt(b, pos))
  {
  }

  lemma BitsOfPrefix(a: Bytes, n: nat)
    requires n <= |a|
    ensures forall pos :: 0 <= pos < 8 * n ==> (BitAt(a[..n], pos) <==> BitAt(a, pos))
  {
  }

  /** Entropy followed by the start of its digest says the entropy. */
  lemma DataSays(entropy: Bytes, tail: Bytes, digest: Bytes -> Hash, indexes: seq<nat>)
    requires 8 * |entropy| == EntropyBits(|indexes|) && ChecksumBits(|indexes|) <= 8 * |tail|
    requires forall pos :: 0 <= pos < 11 * |indexes| ==>
               (StreamBit(indexes, pos) <==> BitAt(entropy + tail, pos))
    ensures Says(indexes, entropy, digest) <==>
            forall pos :: 0 <= pos < ChecksumBits(|indexes|) ==> (BitAt(digest(entropy), pos) <==> BitAt(tail, pos))
  {
    hide Bit, BitAt, StreamBit;
    BitsOfBoth(entropy, tail);
    var bits := 8 * |entropy|;
    assert forall pos :: 0 <= pos < bits ==> (BitAt(entropy, pos) <==> StreamBit(indexes, pos));
    forall pos | 0 <= pos < ChecksumBits(|indexes|)
      ensures StreamBit(indexes, bits + pos) <==> BitAt(tail, pos)
    {
      assert BitAt(entropy + tail, bits + pos) <==> BitAt(tail, pos);
    }
  }

  lemma BufferSays(entropy: Bytes, digest: Bytes -> Hash, indexes: seq<nat>)
    requires IsEntropy(entropy) && 44 * |indexes| == 33 * |entropy|
    requires forall g :: 0 <= g < |indexes| ==> indexes[g] == Index(Buffer(entropy, digest(entropy)), g, 11)
    ensures Says(indexes, entropy, digest)
  {
    hide Bit, BitAt, Index, Says, StreamBit;
    var chk := digest(entropy);
    var n := (|entropy| / 4 + 7) / 8;
    GroupsSay(Buffer(entropy, chk), indexes);
    BitsOfPrefix(chk, n);
    DataSays(entropy, chk[..n], digest, indexes);
  }

  /** Words of the list that say the entropy and its checksum. */
  ghost predicate IsPhrase(list: seq<string>, digest: Bytes -> Hash, words: seq<string>, entropy: Bytes) {
    exists indexes :: FromList(list, words, indexes) && Says(indexes, entropy, digest)
  }

  lemma OneMoreWord(list: seq<string>, words: seq<string>, indexes: seq<nat>, index: nat)
    requires index < |list|
    ensures FromList(list, words, indexes) ==> FromList(list, words + [list[index]], indexes + [index])
    ensures FromList(list, [], [])
  {
  }

  /** Three words for every 32 bits. */
  method GetPhrase(list: seq<string>, digest: Bytes -> Hash, entropy: Bytes) returns (words: seq<string>)
    requires IsWordlist(list) && IsEntropy(entropy)
    ensures 4 * |words| == 3 * |entropy| && IsPhrase(list, digest, words, entropy)
  {
    hide *;
    ghost var indexes: seq<nat>;
    var data := Buffer(entropy, digest(entropy));
    WordCount(list, entropy);
    words, indexes := [], [];
    OneMoreWord(list, words, indexes, 0);
    for i := 0 to (8 * |entropy| + 8 * |entropy| / 32) / 11
      invariant |words| == |indexes| == i && FromList(list, words, indexes)
      invariant forall g :: 0 <= g < i ==> indexes[g] == Index(data, g, 11)
    {
      var index := ReadGroup(data, i);
      OneMoreWord(list, words, indexes, index);
      words := words + [list[index]];
      indexes := indexes + [index];
    }
    BufferSays(entropy, digest, indexes);
    PhraseFound(list, digest, words, entropy, indexes);
  }

  /** Cutting 33 bits for every 32 into groups of eleven leaves nothing over. */
  lemma WordCount(list: seq<string>, entropy: Bytes)
    requires IsWordlist(list) && IsEntropy(entropy)
    ensures |list| == 2048 && 44 * ((8 * |entropy| + 8 * |entropy| / 32) / 11) == 33 * |entropy|
  {
    Thirds(|entropy| / 4);
  }

  lemma Thirds(m: nat)
    ensures 32 * m / 32 == m && 33 * m / 11 == 3 * m
  {
  }

  lemma PhraseFound(list: seq<string>, digest: Bytes -> Hash, words: seq<string>, entropy: Bytes, indexes: seq<nat>)
    requires FromList(list, words, indexes) && Says(indexes, entropy, digest)
    ensures IsPhrase(list, digest, words, entropy)
  {
  }

  // ---------------------------------------------------------------------
  // Words to entropy
  // ---------------------------------------------------------------------

  method Lookup(list: seq<string>, word: string) returns (index: Option<nat>)
    ensures index.None? <==> word !in list
    ensures index.Some? ==> index.value < |list| && list[index.value] == word
  {
    for i := 0 to |list|
      invariant word !in list[..i]
    {
      if list[i] == word { return Some(i); }
    }
    assert list[..|list|] == list;
    return None;
  }

  /** The first `pos` bits are those of the words, the others are zero. */
  ghost predicate Filled(data: array<Byte>, indexes: seq<nat>, pos: nat)
    requires 11 * |indexes| <= 8 * data.Length && pos <= 11 * |indexes|
    reads data
  {
    && (forall p :: 0 <= p < pos ==> (BitAt(data[..], p) <==> StreamBit(indexes, p)))
    && (forall p :: pos <= p < 8 * data.Length ==> !BitAt(data[..], p))
  }

  method PutBit(data: array<Byte>, ghost indexes: seq<nat>, index: nat, i: nat, j: nat)
    requires i < |indexes| && indexes[i] == index && j < 11
    requires 11 * |indexes| <= 8 * data.Length && Filled(data, indexes, 11 * i + j)
    modifies data
    ensures Filled(data, indexes, 11 * i + j + 1)
  {
    hide Bit, SetBit;
    var pos := i * 11 + j;
    var bit, oct := pos % 8, pos / 8;
    assert StreamBit(indexes, pos) <==> Bit(index, 10 - j) by {
      assert pos / 11 == i && pos % 11 == j;
    }
    ghost var before := data[..];
    if Bit(index, 10 - j) {
      BytePower();
      SetBitStays(data[oct], 7 - bit, 8);
      forall p | 0 <= p < 8 * data.Length ensures Bit(SetBit(before[oct], 7 - bit), 7 - p % 8)
                                                  <==> p % 8 == bit || Bit(before[oct], 7 - p % 8)
      {
        SetBitSets(before[oct], 7 - bit, 7 - p % 8);
      }
      data[oct] := SetBit(data[oct], 7 - bit);
    }
    forall p | 0 <= p < 8 * data.Length
      ensures BitAt(data[..], p) <==> (if p == pos then Bit(index, 10 - j) else BitAt(before, p))
    {
      assert p == pos <==> p / 8 == oct && p % 8 == bit;
      assert !BitAt(before, pos);
    }
  }

  lemma NothingFilled(data: array<Byte>)
    requires forall o :: 0 <= o < data.Length ==> data[o] == 0
    ensures Filled(data, [], 0)
  {
    forall p | 0 <= p < 8 * data.Length ensures !BitAt(data[..], p) {
      NoBits(7 - p % 8);
    }
  }

  /** One more word does not change the bits before it. */
  lemma FilledSoFar(data: array<Byte>, rows: seq<nat>, index: nat)
    requires 11 * |rows| + 11 <= 8 * data.Length && Filled(data, rows, 11 * |rows|)
    ensures Filled(data, rows + [index], 11 * |rows|)
  {
  }

  /** The bits of all words, in order. */
  method Unpack(list: seq<string>, words: seq<string>) returns (data: Option<array<Byte>>, ghost indexes: seq<nat>)
    ensures data.None? <==> exists w :: w in words && w !in list
    ensures data.Some? ==> FromList(list, words, indexes) && |words| == |indexes|
    ensures data.Some? ==> data.value.Length == (11 * |words| + 7) / 8
                           && Filled(data.value, indexes, 11 * |words|)
  {
    hide Bit, Filled;
    var bytes := new Byte[(11 * |words| + 7) / 8](_ => 0);
    indexes := [];
    NothingFilled(bytes);
    for i := 0 to |words|
      invariant |indexes| == i && FromList(list, words[..i], indexes)
      invariant fresh(bytes) && Filled(bytes, indexes, 11 * i)
      invariant forall k :: 0 <= k < i ==> words[k] in list
    {
      var index := Lookup(list, words[i]);
      if index.None? { return None, indexes; }
      FilledSoFar(bytes, indexes, index.value);
      indexes := indexes + [index.value];
      for j := 0 to 11
        invariant fresh(bytes) && Filled(bytes, indexes, 11 * i + j)
      {
        PutBit(bytes, indexes, index.value, i, j);
      }
    }
    assert words[..|words|] == words;
    data := Some(bytes);
  }

  lemma FilledBits(data: array<Byte>, indexes: seq<nat>)
    requires 11 * |indexes| <= 8 * data.Length && Filled(data, indexes, 11 * |indexes|)
    ensures forall p :: 0 <= p < 11 * |indexes| ==> (StreamBit(indexes, p) <==> BitAt(data[..], p))
  {
  }

  lemma Sizes(n: nat)
    requires GoodLength(n)
    ensures 8 * ((11 * n + 7) / 8 - (ChecksumBits(n) + 7) / 8) == EntropyBits(n)
    ensures ChecksumBits(n) <= 8 * ((ChecksumBits(n) + 7) / 8)
  {
  }

  /** Accepts exactly the phrases of an allowed length whose trailing bits are the
      checksum of the leading ones, and gives the leading ones. */
  method FromPhrase(list: seq<string>, digest: Bytes -> Hash, words: seq<string>) returns (o: Outcome<Bytes>)
    requires IsWordlist(list)
    ensures o.Accept? ==> GoodLength(|words|) && IsPhrase(list, digest, words, o.value)
    ensures !o.Accept? ==> !GoodLength(|words|) || forall e :: !IsPhrase(list, digest, words, e)
  {
    hide Bit, BitAt, StreamBit, Says, Filled, FromList;
    var wbits := |words| * 11;
    var cbits := wbits % 32;
    if cbits == 0 { return AssertFail; }
    var bits := wbits - cbits;
    if bits < MIN_ENTROPY || bits > MAX_ENTROPY { return AssertFail; }
    var data;
    ghost var indexes;
    data, indexes := Unpack(list, words);
    if data.None? {
      NotFromList(list, words);
      return Throw("Could not find word.");
    }
    var size := (wbits + 7) / 8;
    var cbytes := (cbits + 7) / 8;
    var entropy, chk1 := data.value[..size - cbytes], data.value[size - cbytes..];
    assert data.value[..] == entropy + chk1;
    Sizes(|words|);
    FilledBits(data.value, indexes);
    var chk2 := digest(entropy);
    DataSays(entropy, chk1, digest, indexes);
    for i := 0 to cbits
      invariant forall pos :: 0 <= pos < i ==> (BitAt(chk2, pos) <==> BitAt(chk1, pos))
    {
      if BitAt(chk1, i) != BitAt(chk2, i) {
        NothingElse(entropy, chk1, digest, indexes);
        OneReading(list, words, indexes);
        return Throw("Invalid checksum.");
      }
    }
    return Accept(entropy);
  }

  lemma NotFromList(list: seq<string>, words: seq<string>)
    requires exists w :: w in words && w !in list
    ensures forall indexes :: !FromList(list, words, indexes)
  {
  }

  /** Words name their places in the list. */
  lemma OneReading(list: seq<string>, words: seq<string>, indexes: seq<nat>)
    requires IsWordlist(list) && FromList(list, words, indexes)
    ensures forall other :: FromList(list, words, other) ==> other == indexes
  {
  }

  /** The phrase of any entropy reads back as that entropy and no other. */
  lemma PhraseRoundTrip(list: seq<string>, digest: Bytes -> Hash, words: seq<string>, entropy: Bytes)
    requires IsWordlist(list) && IsEntropy(entropy)
    requires 4 * |words| == 3 * |entropy| && IsPhrase(list, digest, words, entropy)
    ensures GoodLength(|words|)
    ensures forall e :: IsPhrase(list, digest, words, e) ==> e == entropy
  {
    hide Says;
    forall e | IsPhrase(list, digest, words, e) ensures e == entropy {
      var x :| FromList(list, words, x) && Says(x, entropy, digest);
      var y :| FromList(list, words, y) && Says(y, e, digest);
      OneReading(list, words, x);
      SaysOne(x, e, entropy, digest);
    }
    PhraseLength(|words|, |entropy|);
  }

  lemma PhraseLength(n: nat, m: nat)
    requires 4 * n == 3 * m && m % 4 == 0 && MIN_ENTROPY <= 8 * m <= MAX_ENTROPY
    ensures GoodLength(n)
  {
  }

  /** An accepted phrase is the phrase of its entropy exactly when its length is a
      multiple of three: thirteen words, for one, can carry 128 bits and a
      checksum of 15, and are accepted too. */
  lemma AcceptedRegenerates(list: seq<string>, digest: Bytes -> Hash, words: seq<string>, again: seq<string>,
                            entropy: Bytes)
    requires IsWordlist(list) && GoodLength(|words|) && IsPhrase(list, digest, words, entropy)
    requires 4 * |again| == 3 * |entropy| && IsPhrase(list, digest, again, entropy)
    ensures words == again <==> |words| % 3 == 0
    ensures GoodLength(13) && EntropyBits(13) == 128 && ChecksumBits(13) == 15
  {
    hide Bit, BitAt;
    var x :| FromList(list, words, x) && Says(x, entropy, digest);
    var y :| FromList(list, again, y) && Says(y, entropy, digest);
    if |words| % 3 == 0 {
      ThirdsRegular(|words|);
      assert |x| == |y|;
      forall i | 0 <= i < |x| ensures x[i] == y[i] {
        SameRow(x, y, entropy, digest, i);
      }
      assert x == y;
    }
  }

  /** Words for every entropy at every allowed length: those that the entropy and
      the start of its digest are cut into. */
  lemma PhraseOfLength(list: seq<string>, digest: Bytes -> Hash, entropy: Bytes, n: nat) returns (words: seq<string>)
    requires IsWordlist(list) && GoodLength(n) && 8 * |entropy| == EntropyBits(n)
    ensures |words| == n && IsPhrase(list, digest, words, entropy)
  {
    hide Bit, BitAt, StreamBit, Says, Index;
    BytePower();
    var tail := digest(entropy);
    var data := entropy + tail;
    var indexes := seq(n, g requires 0 <= g < n => Index(data, g, 11));
    words := seq(n, g requires 0 <= g < n => list[indexes[g]]);
    GroupsSay(data, indexes);
    DataSays(entropy, tail, digest, indexes);
    PhraseFound(list, digest, words, entropy, indexes);
  }

  /** `fromPhrase` and then `getPhrase`: an accepted phrase comes back exactly when
      its length is a multiple of three. */
  method Regenerate(list: seq<string>, digest: Bytes -> Hash, words: seq<string>)
      returns (o: Outcome<Bytes>, again: seq<string>)
    requires IsWordlist(list)
    ensures o.Accept? <==> GoodLength(|words|) && exists e :: IsPhrase(list, digest, words, e)
    ensures o.Accept? ==> (again == words <==> |words| % 3 == 0)
  {
    hide IsPhrase;
    again := [];
    o := FromPhrase(list, digest, words);
    if o.Accept? {
      PhraseEntropy(list, digest, words, o.value);
      again := GetPhrase(list, digest, o.value);
      AcceptedRegenerates(list, digest, words, again, o.value);
    }
  }

  lemma PhraseEntropy(list: seq<string>, digest: Bytes -> Hash, words: seq<string>, entropy: Bytes)
    requires GoodLength(|words|) && IsPhrase(list, digest, words, entropy)
    ensures IsEntropy(entropy)
  {
    hide Says, EntropyBits;
    var indexes :| FromList(list, words, indexes) && Says(indexes, entropy, digest);
    SaysLength(indexes, entropy, digest);
    WholeWords(|words|, |entropy|);
  }

  lemma WholeWords(n: nat, m: nat)
    requires GoodLength(n) && 8 * m == EntropyBits(n)
    ensures MIN_ENTROPY <= 8 * m <= MAX_ENTROPY && m % 4 == 0
  {
    var q := 11 * n / 32;
    assert 8 * m == 32 * q;
  }

  lemma SaysLength(indexes: seq<nat>, entropy: Bytes, digest: Bytes -> Hash)
    requires Says(indexes, entropy, digest)
    ensures 8 * |entropy| == EntropyBits(|indexes|)
  {
  }

  /** Every 16 bytes of entropy have a phrase of thirteen words: `fromPhrase` takes
      it, and `getPhrase` gives twelve. */
  lemma ThirteenWords(list: seq<string>, digest: Bytes -> Hash, entropy: Bytes)
    requires IsWordlist(list) && |entropy| == 16
    ensures GoodLength(13)
    ensures exists words :: |words| == 13 && IsPhrase(list, digest, words, entropy)
  {
    var words := PhraseOfLength(list, digest, entropy, 13);
  }

  lemma ThirdsRegular(n: nat)
    requires GoodLength(n) && n % 3 == 0
    ensures 32 * n == 3 * EntropyBits(n)
  {
    var m := n / 3;
    assert n == 3 * m && 11 * n == 33 * m == 32 * m + m;
    assert m < 32 ==> 11 * n % 32 == m;
  }

  lemma SameRow(x: seq<nat>, y: seq<nat>, entropy: Bytes, digest: Bytes -> Hash, i: nat)
    requires |x| == |y| && i < |x| && x[i] < 2048 && y[i] < 2048
    requires Says(x, entropy, digest) && Says(y, entropy, digest)
    ensures x[i] == y[i]
  {
    hide Bit, BitAt;
    BytePower();
    var bits := EntropyBits(|x|);
    forall k | 0 <= k < 11 ensures Bit(x[i], k) <==> Bit(y[i], k) {
      var pos := 11 * i + (10 - k);
      assert pos / 11 == i && 10 - pos % 11 == k;
      if pos < bits {
        assert StreamBit(x, pos) == BitAt(entropy, pos) == StreamBit(y, pos);
      } else {
        assert StreamBit(x, bits + (pos - bits)) == BitAt(digest(entropy), pos - bits) == StreamBit(y, bits + (pos - bits));
      }
    }
    SameBits(x[i], y[i], 11);
  }

  /** What the words say can only be their leading bits. */
  lemma NothingElse(entropy: Bytes, tail: Bytes, digest: Bytes -> Hash, indexes: seq<nat>)
    requires 8 * |entropy| == EntropyBits(|indexes|) && ChecksumBits(|indexes|) <= 8 * |tail|
    requires forall pos :: 0 <= pos < 11 * |indexes| ==>
               (StreamBit(indexes, pos) <==> BitAt(entropy + tail, pos))
    requires !Says(indexes, entropy, digest)
    ensures forall e :: !Says(indexes, e, digest)
  {
    hide Bit, BitAt, StreamBit;
    BitsOfBoth(entropy, tail);
    forall e | Says(indexes, e, digest) ensures e == entropy {
      forall pos | 0 <= pos < 8 * |e| ensures BitAt(e, pos) <==> BitAt(entropy, pos) {
        assert BitAt(e, pos) == StreamBit(indexes, pos) == BitAt(entropy + tail, pos) == BitAt(entropy, pos);
      }
      SameBuffers(e, entropy);
    }
  }
}
