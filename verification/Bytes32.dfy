/** Little-endian 32-bit integers. */
module Bytes32 {
  import opened Primitives

  const U32_LIMIT := 0x1_0000_0000

  function U32(n: nat): (s: Bytes)
    ensures |s| == 4
  {
    [n % 256, n / 0x100 % 256, n / 0x1_0000 % 256, n / 0x100_0000 % 256]
  }

  function ReadU32(s: Bytes): (n: nat)
    requires |s| >= 4
    ensures n < U32_LIMIT
  {
    (s[0] as int) + 0x100 * (s[1] as int) + 0x1_0000 * (s[2] as int) + 0x100_0000 * (s[3] as int)
  }

  lemma U32RoundTrip(n: nat, rest: Bytes)
    requires n < U32_LIMIT
    ensures ReadU32(U32(n) + rest) == n
  {
  }
}
