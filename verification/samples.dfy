/** The sample decoder of `read_file`: a raw byte buffer is cut into
    consecutive, non-overlapping byte pairs, and each pair is read as an
    unsigned 16-bit little-endian word. A final unpaired byte is dropped. */
module Samples {

  /** One byte of the input buffer (`u8`). */
  type Byte = b: int | 0 <= b < 0x100

  /** One decoded sample (`u16`). */
  type U16 = w: int | 0 <= w < 0x1_0000

  /** `u16::from_le_bytes([lo, hi])`: the first byte is the low-order one. */
  function FromLeBytes(lo: Byte, hi: Byte): (w: U16)
    ensures w % 0x100 == lo
    ensures w / 0x100 == hi
  {
    lo + 0x100 * hi
  }

  /** `u16::to_le_bytes`: the two bytes of a word, low-order byte first. */
  function ToLeBytes(w: U16): (pair: (Byte, Byte))
    ensures FromLeBytes(pair.0, pair.1) == w
  {
    (w % 0x100, w / 0x100)
  }

  /** `chunks_exact(2)` followed by `from_le_bytes` on every chunk. */
  function Decode(bytes: seq<Byte>): (samples: seq<U16>)
    ensures |samples| == |bytes| / 2
    ensures forall i :: 0 <= i < |samples| ==>
              samples[i] == bytes[2 * i] as int + 0x100 * bytes[2 * i + 1] as int
  {
    if |bytes| < 2 then []
    else [FromLeBytes(bytes[0], bytes[1])] + Decode(bytes[2..])
  }

  /** The inverse direction: every word written as two little-endian bytes. */
  function Encode(words: seq<U16>): (bytes: seq<Byte>)
    ensures |bytes| == 2 * |words|
    ensures forall i :: 0 <= i < |words| ==>
              bytes[2 * i] == words[i] % 0x100 && bytes[2 * i + 1] == words[i] / 0x100
  {
    if words == [] then []
    else
      var pair := ToLeBytes(words[0]);
      [pair.0, pair.1] + Encode(words[1..])
  }

  /** The loop behind `read_file`: walks the buffer two bytes at a time and
      pushes one sample per complete pair. */
  method ReadFile(bytes: seq<Byte>) returns (samples: seq<U16>)
    ensures samples == Decode(bytes)
  {
    samples := [];
    var i := 0;
    while i + 2 <= |bytes|
      invariant i % 2 == 0 && i <= |bytes|
      invariant |samples| == i / 2
      invariant forall k :: 0 <= k < |samples| ==>
                  samples[k] == bytes[2 * k] as int + 0x100 * bytes[2 * k + 1] as int
    {
      samples := samples + [FromLeBytes(bytes[i], bytes[i + 1])];
      i := i + 2;
    }
  }

  /** Round trip: decoding the little-endian encoding of any word sequence
      gives the words back. */
  lemma {:induction false} DecodeEncode(words: seq<U16>)
    ensures Decode(Encode(words)) == words
  {
    if words != [] {
      var pair := ToLeBytes(words[0]);
      assert Encode(words) == [pair.0, pair.1] + Encode(words[1..]);
      assert Encode(words)[2..] == Encode(words[1..]);
      DecodeEncode(words[1..]);
    }
  }

  /** Round trip the other way: an even-length buffer is exactly the encoding
      of its decoding, so decoding loses no byte of a complete pair. */
  lemma {:induction false} EncodeDecode(bytes: seq<Byte>)
    requires |bytes| % 2 == 0
    ensures Encode(Decode(bytes)) == bytes
  {
    if |bytes| >= 2 {
      var w := FromLeBytes(bytes[0], bytes[1]);
      assert Decode(bytes) == [w] + Decode(bytes[2..]);
      assert Decode(bytes)[1..] == Decode(bytes[2..]);
      EncodeDecode(bytes[2..]);
      assert bytes == [bytes[0], bytes[1]] + bytes[2..];
    }
  }

  /** Decoding only ever sees the largest even-length prefix of the buffer. */
  lemma {:induction false} DecodeEvenPrefix(bytes: seq<Byte>)
    ensures Decode(bytes) == Decode(bytes[..2 * (|bytes| / 2)])
  {
    if |bytes| >= 2 {
      var prefix := bytes[..2 * (|bytes| / 2)];
      assert prefix[2..] == bytes[2..][..2 * (|bytes[2..]| / 2)];
      DecodeEvenPrefix(bytes[2..]);
    }
  }

  /** Truncation law: a trailing unpaired byte is silently dropped. */
  lemma DecodeDropsOddByte(bytes: seq<Byte>)
    requires |bytes| % 2 == 1
    ensures Decode(bytes) == Decode(bytes[..|bytes| - 1])
  {
    DecodeEvenPrefix(bytes);
  }

  /** Decoding distributes over concatenation when the first part has an
      even length, so a known prefix of the buffer fixes a prefix of the
      samples. */
  lemma {:induction false} DecodeAppend(front: seq<Byte>, back: seq<Byte>)
    requires |front| % 2 == 0
    ensures Decode(front + back) == Decode(front) + Decode(back)
  {
    if |front| >= 2 {
      assert (front + back)[2..] == front[2..] + back;
      DecodeAppend(front[2..], back);
    } else {
      assert front + back == back;
    }
  }

  /** The recorded sample file starts with the bytes 44 09 F3 06 D1 05; whatever
      follows, its first three samples are 0x944, 0x6f3 and 0x5d1. */
  lemma RecordedFileStart(rest: seq<Byte>)
    ensures |Decode([0x44, 0x09, 0xF3, 0x06, 0xD1, 0x05] + rest)| >= 3
    ensures Decode([0x44, 0x09, 0xF3, 0x06, 0xD1, 0x05] + rest)[..3] == [0x944, 0x6f3, 0x5d1]
  {
    var head: seq<Byte> := [0x44, 0x09, 0xF3, 0x06, 0xD1, 0x05];
    DecodeAppend(head, rest);
    assert Decode(head) == [0x944, 0x6f3, 0x5d1];
  }
}
