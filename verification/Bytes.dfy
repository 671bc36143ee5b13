// Bytes and the big-endian 32-bit integers written by writeUInt32BE.
module Bytes {

  newtype byte = x: int | 0 <= x < 256

  datatype Option<+T> = None | Some(value: T)

  const UINT32_MAX: nat := 0xffff_ffff

  /** Most significant byte first. */
  function WriteUInt32BE(n: nat): (s: seq<byte>)
    requires n <= UINT32_MAX
    ensures |s| == 4
  {
    [(n / 256 / 256 / 256) as byte, (n / 256 / 256 % 256) as byte, (n / 256 % 256) as byte, (n % 256) as byte]
  }

  function ReadUInt32BE(s: seq<byte>): (n: nat)
    requires |s| == 4
  {
    ((s[0] as nat * 256 + s[1] as nat) * 256 + s[2] as nat) * 256 + s[3] as nat
  }

  lemma ReadAfterWrite(n: nat)
    requires n <= UINT32_MAX
    ensures ReadUInt32BE(WriteUInt32BE(n)) == n
  {
    var q, r, t := n / 256, n / 256 / 256, n / 256 / 256 / 256;
    assert n == q * 256 + n % 256 && q == r * 256 + q % 256 && r == t * 256 + r % 256;
  }

  lemma WriteAfterRead(s: seq<byte>)
    requires |s| == 4
    ensures ReadUInt32BE(s) <= UINT32_MAX
    ensures WriteUInt32BE(ReadUInt32BE(s)) == s
  {
    var t := s[0] as nat;
    var r := t * 256 + s[1] as nat;
    var q := r * 256 + s[2] as nat;
    var n := q * 256 + s[3] as nat;
    assert n / 256 == q && q / 256 == r && r / 256 == t;
  }
}
