/** Machine words of the C and C++ sources: unsigned 8-bit bytes and
    unsigned 64-bit words. Both are bounded newtypes over `int`, so every
    intermediate result of an operation on them must stay in range (the
    verifier reports any wrap-around), and Dafny's Euclidean `/` and `%`
    coincide with C's unsigned division on them. */
module Words {

  const U64_MODULUS: int := 0x1_0000_0000_0000_0000
  const U64_MAX: int := 0xFFFF_FFFF_FFFF_FFFF

  /** `uint64_t` */
  newtype u64 = x: int | 0 <= x < 0x1_0000_0000_0000_0000

  /** `uint8_t` */
  newtype u8 = x: int | 0 <= x < 0x100

  /** The C string terminator. */
  const NUL: u8 := 0
  const SPACE: u8 := 0x20
  const NEWLINE: u8 := 0x0A

  /** `strlen` over a zero-terminated buffer: the index of the first NUL. */
  function StrLen(s: seq<u8>): (r: nat)
    requires NUL in s
    ensures r < |s| && s[r] == NUL
    ensures forall j :: 0 <= j < r ==> s[j] != NUL
  {
    if s[0] == NUL then 0 else 1 + StrLen(s[1..])
  }

  /** `strlen(s) - 2` computed in `size_t`: wraps modulo 2^64 below 2. */
  function SizeMinusTwo(len: nat): (r: u64)
    requires len < U64_MODULUS
    ensures len >= 2 ==> r as int == len - 2
    ensures len < 2 ==> r as int >= U64_MAX - 1
  {
    ((len - 2) % U64_MODULUS) as u64
  }
}
