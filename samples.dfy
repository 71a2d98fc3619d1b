/** Samples as the cache sees them: 32-bit IEEE floats that are only moved
    around, never computed on, and the byte-to-sample conversion that
    Cache.Append performs with Buffer.BlockCopy. */
module Samples {

  /** One 32-bit float sample, kept as its four bytes in memory order.
      Nothing in the cache interprets the value. */
  datatype Sample = Sample(b0: bv8, b1: bv8, b2: bv8, b3: bv8)

  /** The float 0.0, whose four bytes are all zero. */
  const Silence: Sample := Sample(0, 0, 0, 0)

  /** Reinterprets a byte run as floats: every four bytes become one sample. */
  function Decode(bytes: seq<bv8>): (r: seq<Sample>)
    requires |bytes| % 4 == 0
    ensures |r| == |bytes| / 4
    decreases |bytes|
  {
    if |bytes| == 0 then []
    else [Sample(bytes[0], bytes[1], bytes[2], bytes[3])] + Decode(bytes[4..])
  }

  /** The bytes of a run of samples, four per sample; the inverse of Decode. */
  function Encode(s: seq<Sample>): (r: seq<bv8>)
    ensures |r| == 4 * |s|
  {
    if s == [] then []
    else [s[0].b0, s[0].b1, s[0].b2, s[0].b3] + Encode(s[1..])
  }

  /** Sample i of a decoded run is made of bytes 4i .. 4i+3. */
  lemma {:induction false} DecodeAt(bytes: seq<bv8>, i: nat)
    requires |bytes| % 4 == 0 && i < |bytes| / 4
    ensures Decode(bytes)[i] == Sample(bytes[4 * i], bytes[4 * i + 1], bytes[4 * i + 2], bytes[4 * i + 3])
    decreases i
  {
    if i > 0 {
      DecodeAt(bytes[4..], i - 1);
    }
  }

  /** No sample is lost or altered by writing it out as bytes and reading it back. */
  lemma {:induction false} DecodeEncode(s: seq<Sample>)
    ensures Decode(Encode(s)) == s
  {
    if s != [] {
      var e := Encode(s);
      assert e[4..] == Encode(s[1..]);
      DecodeEncode(s[1..]);
    }
  }

  /** No byte is lost or altered by reading a run as samples and writing it back. */
  lemma {:induction false} EncodeDecode(bytes: seq<bv8>)
    requires |bytes| % 4 == 0
    ensures Encode(Decode(bytes)) == bytes
    decreases |bytes|
  {
    if |bytes| > 0 {
      var d := Decode(bytes);
      assert d[1..] == Decode(bytes[4..]);
      EncodeDecode(bytes[4..]);
      assert bytes == bytes[..4] + bytes[4..];
    }
  }
}
