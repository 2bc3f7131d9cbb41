/** The chunk walk of the image decoder (agent-server/focusproof/media_adapters/decoder_worker.py:74-93),
    against the datastream of sections 3.1, 3.2 and 4.1.4 of RFC 2083. */
module PngWalk {
  import opened Basics
  import opened Framing

  type Tag = b: Bytes | |b| == 4 witness [0, 0, 0, 0]

  /** The payload of a chunk is shorter than its length field can say. */
  datatype Chunk = Chunk(kind: Tag, data: Bytes, crc: Tag)

  predicate Fits(c: Chunk) {
    |c.data| < WORD
  }

  const SIGNATURE: Bytes := [0x89, 0x50, 0x4e, 0x47, 0x0d, 0x0a, 0x1a, 0x0a]

  const IEND: Tag := [0x49, 0x45, 0x4e, 0x44]

  function Encoded(c: Chunk): (b: Bytes)
    requires Fits(c)
    ensures |b| == 12 + |c.data|
  {
    BigEndian(|c.data|) + c.kind + c.data + c.crc
  }

  predicate AllFit(chunks: seq<Chunk>) {
    forall c <- chunks :: Fits(c)
  }

  function Serialize(chunks: seq<Chunk>): Bytes
    requires AllFit(chunks)
  {
    if chunks == [] then [] else Encoded(chunks[0]) + Serialize(chunks[1..])
  }

  /** The only IEND is the last chunk, and it is empty. */
  predicate Terminated(chunks: seq<Chunk>) {
    && chunks != []
    && chunks[|chunks| - 1].kind == IEND && chunks[|chunks| - 1].data == []
    && forall i :: 0 <= i < |chunks| - 1 ==> chunks[i].kind != IEND
  }

  ghost predicate IsPng(payload: Bytes, chunks: seq<Chunk>) {
    AllFit(chunks) && Terminated(chunks) && payload == SIGNATURE + Serialize(chunks)
  }

  // ---------------------------------------------------------------------
  // Taking a datastream apart

  /** The chunk at the front, when one is there. */
  function Front(b: Bytes): Option<Chunk> {
    if |b| < 12 || |b| < 12 + FromBigEndian(b[..4]) then None
    else
      var length := FromBigEndian(b[..4]);
      Some(Chunk(b[4..8], b[8..8 + length], b[8 + length..12 + length]))
  }

  /** A datastream is taken apart in one way only. */
  lemma FrontOfEncoded(c: Chunk, rest: Bytes)
    requires Fits(c)
    ensures Front(Encoded(c) + rest) == Some(c)
    ensures (Encoded(c) + rest)[12 + |c.data|..] == rest
  {
    var b := Encoded(c) + rest;
    assert b[..4] == BigEndian(|c.data|);
    BigEndianRoundTrip(|c.data|);
    assert b[4..8] == c.kind && b[8..8 + |c.data|] == c.data && b[8 + |c.data|..12 + |c.data|] == c.crc;
  }

  lemma EncodedFront(b: Bytes)
    requires Front(b).Some?
    ensures var c := Front(b).value;
            Fits(c) && 12 + |c.data| <= |b| && b == Encoded(c) + b[12 + |c.data|..]
  {
    var c := Front(b).value;
    BigEndianRoundTripBack(b[..4]);
    var length := |c.data|;
    assert b == b[..4] + b[4..8] + b[8..8 + length] + b[8 + length..12 + length] + b[12 + length..];
  }

  /** Two chunk sequences with the same bytes are the same. */
  lemma {:induction false} DecompositionIsUnique(a: seq<Chunk>, b: seq<Chunk>)
    requires AllFit(a) && AllFit(b) && Serialize(a) == Serialize(b)
    ensures a == b
    decreases |a|
  {
    if a != [] && b != [] {
      FrontOfEncoded(a[0], Serialize(a[1..]));
      FrontOfEncoded(b[0], Serialize(b[1..]));
      DecompositionIsUnique(a[1..], b[1..]);
    }
  }

  lemma {:induction false} SerializeAppends(chunks: seq<Chunk>, c: Chunk)
    requires AllFit(chunks) && Fits(c)
    ensures AllFit(chunks + [c])
    ensures Serialize(chunks + [c]) == Serialize(chunks) + Encoded(c)
  {
    if chunks == [] {
      assert [c][1..] == [] && chunks + [c] == [c];
    } else {
      SerializeAppends(chunks[1..], c);
      assert (chunks + [c])[1..] == chunks[1..] + [c];
    }
  }

  /** What has been walked is how any reading of the payload begins. */
  lemma {:induction false} WalkedIsPrefix(walked: seq<Chunk>, rest: Bytes, chunks: seq<Chunk>)
    requires AllFit(walked) && AllFit(chunks) && Serialize(walked) + rest == Serialize(chunks)
    ensures |walked| <= |chunks| && chunks[..|walked|] == walked
    ensures rest == Serialize(chunks[|walked|..])
    decreases |walked|
  {
    hide Encoded, Front;
    if walked == [] {
      assert [] + rest == rest && chunks[0..] == chunks;
    } else {
      var first, tail := walked[0], Serialize(walked[1..]) + rest;
      ConcatAssociates(Encoded(first), Serialize(walked[1..]), rest);
      assert Serialize(chunks) == Encoded(first) + tail;
      FrontOfEncoded(first, tail);
      assert |Serialize(chunks)| >= 12;
      FrontOfEncoded(chunks[0], Serialize(chunks[1..]));
      WalkedIsPrefix(walked[1..], rest, chunks[1..]);
      PrefixOfRest(walked, chunks);
    }
  }

  lemma PrefixOfRest(walked: seq<Chunk>, chunks: seq<Chunk>)
    requires 0 < |walked| <= |chunks| && walked[0] == chunks[0]
    requires chunks[1..][..|walked| - 1] == walked[1..]
    ensures chunks[..|walked|] == walked
    ensures chunks[1..][|walked| - 1..] == chunks[|walked|..]
  {
    assert walked == [walked[0]] + walked[1..];
    assert chunks[..|walked|] == [chunks[0]] + chunks[1..][..|walked| - 1];
  }

  // ---------------------------------------------------------------------
  // The walk

  /** What the walk knows between two chunks. */
  ghost predicate Walked(payload: Bytes, offset: nat, chunks: seq<Chunk>, seen: bool) {
    && 8 <= offset <= |payload|
    && AllFit(chunks) && payload == SIGNATURE + Serialize(chunks) + payload[offset..]
    && (if seen then offset == |payload| && Terminated(chunks) else forall c <- chunks :: c.kind != IEND)
  }

  /** Any reading of the payload goes on with a chunk at the front of what is left; if that is
      an IEND, it is empty and ends the payload. */
  ghost predicate Readable(rest: Bytes) {
    && Front(rest).Some?
    && (Front(rest).value.kind == IEND ==> Front(rest).value.data == [] && |rest| == 12)
  }

  lemma WalkOn(payload: Bytes, offset: nat, chunks: seq<Chunk>)
    requires Walked(payload, offset, chunks, false) && Front(payload[offset..]).Some?
    requires var c := Front(payload[offset..]).value;
             c.kind == IEND ==> c.data == [] && offset + 12 == |payload|
    ensures var c := Front(payload[offset..]).value;
            Walked(payload, offset + 12 + |c.data|, chunks + [c], c.kind == IEND)
  {
    var rest := payload[offset..];
    var c := Front(rest).value;
    EncodedFront(rest);
    SerializeAppends(chunks, c);
    var left := rest[12 + |c.data|..];
    assert left == payload[offset + 12 + |c.data|..];
    hide Encoded, Serialize, Front;
    ConcatAssociates(SIGNATURE + Serialize(chunks), Encoded(c), left);
    ConcatAssociates(SIGNATURE, Serialize(chunks), Encoded(c));
  }

  /** The PNG branch of `_terminal`: accepts exactly a signature and a terminated sequence of
      chunks, and has then walked that sequence. */
  method WalkPng(payload: Bytes) returns (accepted: bool, ghost chunks: seq<Chunk>)
    ensures accepted ==> IsPng(payload, chunks)
    ensures !accepted ==> forall cs :: !IsPng(payload, cs)
  {
    chunks := [];
    if |payload| < 8 || payload[..8] != SIGNATURE {
      return false, chunks;
    }
    var offset, seen := 8, false;
    assert payload == SIGNATURE + Serialize(chunks) + payload[8..];
    while offset < |payload|
      invariant 8 <= offset <= |payload|
      invariant Walked(payload, offset, chunks, seen)
      decreases |payload| - offset
    {
      ghost var rest := payload[offset..];
      RestMustBeRead(payload, chunks, rest);
      hide IsPng, Walked, FromBigEndian;
      if |payload| - offset < 12 {
        return false, chunks;
      }
      var length := FromBigEndian(payload[offset..offset + 4]);
      var kind := payload[offset + 4..offset + 8];
      var end := offset + 12 + length;
      assert payload[offset..offset + 4] == rest[..4] && kind == rest[4..8];
      if end > |payload| {
        return false, chunks;
      }
      assert Front(rest).Some? && kind == Front(rest).value.kind && length == |Front(rest).value.data|;
      if kind == IEND {
        if seen || length != 0 || end != |payload| {
          return false, chunks;
        }
        seen := true;
      }
      WalkOn(payload, offset, chunks);
      chunks := chunks + [Front(rest).value];
      offset := end;
    }
    assert payload[offset..] == [] && SIGNATURE + Serialize(chunks) + [] == SIGNATURE + Serialize(chunks);
    if !seen {
      forall cs ensures !IsPng(payload, cs) {
        if IsPng(payload, cs) {
          SamePayloadSameChunks(payload, chunks, cs);
        }
      }
      return false, chunks;
    }
    accepted := true;
  }

  lemma SamePayloadSameChunks(payload: Bytes, a: seq<Chunk>, b: seq<Chunk>)
    requires AllFit(a) && AllFit(b)
    requires payload == SIGNATURE + Serialize(a) && payload == SIGNATURE + Serialize(b)
    ensures a == b
  {
    assert payload[8..] == Serialize(a) && payload[8..] == Serialize(b);
    DecompositionIsUnique(a, b);
  }

  lemma RestMustBeRead(payload: Bytes, walked: seq<Chunk>, rest: Bytes)
    requires AllFit(walked) && payload == SIGNATURE + Serialize(walked) + rest && rest != []
    ensures forall cs :: IsPng(payload, cs) ==> Readable(rest)
  {
    forall cs | IsPng(payload, cs) ensures Readable(rest) {
      assert payload[8..] == Serialize(walked) + rest && payload[8..] == Serialize(cs);
      WalkedIsPrefix(walked, rest, cs);
      var left := cs[|walked|..];
      assert left != [];
      FrontOfEncoded(left[0], Serialize(left[1..]));
      assert left[0] == cs[|walked|];
      if left[0].kind == IEND {
        assert |walked| == |cs| - 1;
        assert left[1..] == [];
      }
    }
  }

  /** Walking a serialized sequence accepts it exactly when it is terminated, and recovers it. */
  lemma WalkRecoversWhatWasSerialized(chunks: seq<Chunk>, walked: seq<Chunk>)
    requires AllFit(chunks) && IsPng(SIGNATURE + Serialize(chunks), walked)
    ensures walked == chunks && Terminated(chunks)
  {
    SamePayloadSameChunks(SIGNATURE + Serialize(chunks), chunks, walked);
  }
}
