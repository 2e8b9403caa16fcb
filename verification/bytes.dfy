/** Octets and the two-byte length prefix of the wire format. */
module Bytes {

  /** An octet; an integer newtype rather than `bv8` keeps arithmetic on
      prefixes cheap for the solver. */
  newtype byte = x: int | 0 <= x < 256

  /** Largest length a uint16 prefix can carry. */
  const MaxUint16: nat := 65535

  /** `n` zero bytes. */
  function Zeros(n: nat): (r: seq<byte>)
    ensures |r| == n
    ensures forall i :: 0 <= i < n ==> r[i] == 0
  {
    seq(n, _ => 0)
  }

  /** The value a little-endian uint16 prefix denotes. */
  function DecodeUint16(b: seq<byte>): (n: nat)
    requires |b| == 2
    ensures n <= MaxUint16
  {
    b[0] as nat + 256 * (b[1] as nat)
  }

  /** The little-endian uint16 prefix for `n`, as the serializer writes it. */
  function EncodeUint16(n: nat): (r: seq<byte>)
    requires n <= MaxUint16
    ensures |r| == 2
    ensures DecodeUint16(r) == n
  {
    [(n % 256) as byte, (n / 256) as byte]
  }

  /** Every two-byte prefix is the encoding of the length it denotes, so the
      prefix encoding is a bijection between 0..65535 and two-byte strings. */
  lemma EncodeDecodeUint16(b: seq<byte>)
    requires |b| == 2
    ensures EncodeUint16(DecodeUint16(b)) == b
  {
    var lo, hi := b[0] as nat, b[1] as nat;
    var n := lo + 256 * hi;
    assert n % 256 == lo && n / 256 == hi by {
      assert n == hi * 256 + lo && 0 <= lo < 256;
    }
  }
}
