/**
 A byte stream held as a list of pieces, as it arrived, and taking complete
 chunks off its front.
 */
module Pieces {
  import opened Primitives

  function Concat(pieces: seq<Bytes>): Bytes {
    if pieces == [] then [] else pieces[0] + Concat(pieces[1..])
  }

  lemma {:induction false} ConcatSnoc(pieces: seq<Bytes>, data: Bytes)
    ensures Concat(pieces + [data]) == Concat(pieces) + data
  {
    if pieces == [] {
      assert pieces + [data] == [data] && [data][1..] == [];
    } else {
      ConcatSnoc(pieces[1..], data);
      assert (pieces + [data])[1..] == pieces[1..] + [data];
    }
  }

  lemma ConcatHead(first: Bytes, rest: seq<Bytes>)
    ensures Concat([first] + rest) == first + Concat(rest)
  {
  }

  /** As much of a piece as fits is copied in at an offset. */
  method Copy(chunk: array<Byte>, off: nat, piece: Bytes) returns (len: nat)
    requires off <= chunk.Length
    modifies chunk
    ensures len == if |piece| <= chunk.Length - off then |piece| else chunk.Length - off
    ensures chunk[..off + len] == old(chunk[..off]) + piece[..len]
  {
    len := if |piece| <= chunk.Length - off then |piece| else chunk.Length - off;
    forall i | 0 <= i < len { chunk[off + i] := piece[i]; }
  }

  lemma Regroup(done: Bytes, piece: Bytes, len: nat, rest: Bytes)
    requires len <= |piece|
    ensures done + piece[..len] + (piece[len..] + rest) == done + (piece + rest)
    ensures len == |piece| ==> piece[len..] + rest == rest
  {
  }

  lemma Cut(front: Bytes, back: Bytes, all: Bytes)
    requires front + back == all
    ensures front == all[..|front|] && back == all[|front|..]
  {
  }

  lemma NoneLeft(pieces: seq<Bytes>)
    ensures pieces == [] ==> Concat(pieces) == []
  {
  }

  /** The next `size` bytes, copied piece by piece into one buffer. */
  method Take(pieces: seq<Bytes>, size: nat) returns (chunk: array<Byte>, left: seq<Bytes>)
    requires size <= |Concat(pieces)|
    ensures fresh(chunk)
    ensures chunk[..] == Concat(pieces)[..size] && Concat(left) == Concat(pieces)[size..]
  {
    hide Concat;
    chunk := new Byte[size](_ => 0);
    left := pieces;
    var off: nat := 0;
    ghost var all := Concat(pieces);
    while off < size
      invariant fresh(chunk) && chunk.Length == size && off <= size
      invariant chunk[..off] + Concat(left) == all
      decreases |left|, size - off
    {
      NoneLeft(left);
      var piece := left[0];
      ghost var done, rest := chunk[..off], left[1..];
      assert left == [piece] + rest;
      ConcatHead(piece, rest);
      var len := Copy(chunk, off, piece);
      Regroup(done, piece, len, Concat(rest));
      if len == |piece| {
        left := left[1..];
      } else {
        left := left[0 := piece[len..]];
        assert left == [piece[len..]] + rest;
        ConcatHead(piece[len..], rest);
      }
      off := off + len;
    }
    assert chunk[..] == chunk[..off];
    Cut(chunk[..], Concat(left), all);
  }
}
