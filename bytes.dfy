/** Raw bytes, as read from a trace file, and the ASCII conversions between
    bytes and text that the activators perform. */
module Bytes {

  newtype byte = b: int | 0 <= b < 256

  /** `bs.decode('ascii')`, byte by byte (the modelled callers only decode
      bytes below 128). */
  function Decode(bs: seq<byte>): (s: string)
    ensures |s| == |bs| && forall i :: 0 <= i < |bs| ==> s[i] as int == bs[i] as int
  {
    seq(|bs|, i requires 0 <= i < |bs| => (bs[i] as int) as char)
  }

  /** The bytes of a `b'...'` literal: each character's code, which for the
      ASCII and Latin-1 characters such a literal may hold is the code
      itself. */
  function Literal(s: string): (bs: seq<byte>)
    ensures |bs| == |s| && forall i :: 0 <= i < |s| ==> bs[i] as int == s[i] as int % 256
  {
    seq(|s|, i requires 0 <= i < |s| => (s[i] as int % 256) as byte)
  }

  /** Decoding and re-encoding gives the bytes back. */
  lemma LiteralDecode(bs: seq<byte>)
    ensures Literal(Decode(bs)) == bs
  {
  }

  /** Encoding text of one-byte characters and decoding it gives the text
      back. */
  lemma DecodeLiteral(s: string)
    requires forall i :: 0 <= i < |s| ==> s[i] as int < 256
    ensures Decode(Literal(s)) == s
  {
  }
}
