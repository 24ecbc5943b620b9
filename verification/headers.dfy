/** Compile-time constants of the three variants of the program, one module
    per header. The hash-block size (`PPQ_THREEFISH512_BLOCK_BYTES`,
    `SYMM_THREEFISH512_BLOCK_BYTES`) comes from a library header that is not
    part of this model; it is the 512-bit block of Threefish, 64 bytes. */

/** Threegen.h (the SSC/PPQ C version). */
module SscHeader {
  import opened Words

  const THREEFISH512_BLOCK_BYTES: nat := 64

  const MAX_PW_SIZE: nat := 125
  const PW_BUF_SIZE: nat := MAX_PW_SIZE + 1
  const NUM_RAND_WORDS: nat := PW_BUF_SIZE
  const NUM_RAND_BYTES: nat := NUM_RAND_WORDS * 8
  const MAX_ENT_SIZE: nat := 120
  const ENT_BUF_SIZE: nat := MAX_ENT_SIZE + 1 + THREEFISH512_BLOCK_BYTES
  const NUM_LCASE: nat := 26
  const NUM_UCASE: nat := 26
  const NUM_DIGITS: nat := 10
  const NUM_SYMBOLS: nat := 32
  const NUM_ALL_CHARS: nat := NUM_LCASE + NUM_UCASE + NUM_DIGITS + NUM_SYMBOLS
  const UPPER_LIMIT: u64 := (U64_MAX - NUM_ALL_CHARS) as u64

  /** One random word per password byte, including the terminator slot,
      and every size the argument checks admit leaves that slot free. */
  lemma BufferSizes()
    ensures PW_BUF_SIZE == MAX_PW_SIZE + 1 == 126
    ensures NUM_RAND_WORDS == PW_BUF_SIZE && NUM_RAND_BYTES == 8 * NUM_RAND_WORDS
    ensures MAX_PW_SIZE < PW_BUF_SIZE && MAX_PW_SIZE <= NUM_RAND_WORDS
  {
  }

  /** The entropy buffer holds the 64-byte digest at offset 0, then up to
      MAX_ENT_SIZE keyboard bytes and their terminator from offset 64. */
  lemma EntropyBufferLayout()
    ensures THREEFISH512_BLOCK_BYTES + (MAX_ENT_SIZE + 1) == ENT_BUF_SIZE == 185
  {
  }

  /** The four set sizes add up to the length of `character_table`, and the
      upper limit leaves room for at least one quantum per character. */
  lemma TableAndLimit()
    ensures NUM_ALL_CHARS == 94
    ensures UPPER_LIMIT as int == U64_MAX - 94
    ensures UPPER_LIMIT as int >= NUM_ALL_CHARS
  {
  }
}

/** threegen.h (the Base/Skc C version). */
module BaseHeader {
  import opened Words

  const THREEFISH512_BLOCK_BYTES: nat := 64

  const MAX_PW_SIZE: nat := 125
  const PW_BUF_SIZE: nat := MAX_PW_SIZE + 1
  const NUM_RAND_BYTES: nat := PW_BUF_SIZE * 8
  const NUM_RAND_WORDS: nat := NUM_RAND_BYTES / 8
  const MAX_ENT_SIZE: nat := 120
  const ENT_BUF_SIZE: nat := MAX_ENT_SIZE + 1 + THREEFISH512_BLOCK_BYTES
  const NUM_LCASE: nat := 26
  const NUM_UCASE: nat := 26
  const NUM_DIGITS: nat := 10
  const NUM_SYMBOLS: nat := 32
  const NUM_ALL_CHARS: nat := NUM_LCASE + NUM_UCASE + NUM_DIGITS + NUM_SYMBOLS
  const UPPER_LIMIT: u64 := (U64_MAX - NUM_ALL_CHARS) as u64

  /** The word count is derived from the byte count here, but comes out the
      same as in Threegen.h: one word per buffer slot. */
  lemma BufferSizes()
    ensures PW_BUF_SIZE == 126 && NUM_RAND_WORDS == PW_BUF_SIZE
    ensures NUM_RAND_WORDS >= MAX_PW_SIZE
  {
  }

  lemma EntropyBufferLayout()
    ensures THREEFISH512_BLOCK_BYTES + (MAX_ENT_SIZE + 1) == ENT_BUF_SIZE == 185
  {
  }

  lemma TableAndLimit()
    ensures NUM_ALL_CHARS == 94
    ensures UPPER_LIMIT as int == U64_MAX - 94
  {
  }
}

/** password_generator.hh (the C++ version). */
module CxxHeader {
  import opened Words
  import SscHeader

  const ALGORITHM_BITS: nat := 512
  const ALGORITHM_BYTES: nat := ALGORITHM_BITS / 8
  const MAX_PASSWORD_LENGTH: nat := 120
  const PASSWORD_BUFFER_BYTES: nat := MAX_PASSWORD_LENGTH + 1
  const NUMBER_RANDOM_BYTES: nat := PASSWORD_BUFFER_BYTES * 8
  const MAX_ENTROPY_LENGTH: nat := 120
  const ENTROPY_BUFFER_BYTES: nat := MAX_ENTROPY_LENGTH + 1 + ALGORITHM_BYTES
  const NUMBER_LOWERCASE: nat := 26
  const NUMBER_UPPERCASE: nat := 26
  const NUMBER_DIGITS: nat := 10
  // The header's comment speaks of 33 symbols; the value is 32.
  const NUMBER_SYMBOLS: nat := 32
  const NUMBER_ALL_CHARACTERS: nat := NUMBER_LOWERCASE + NUMBER_UPPERCASE + NUMBER_DIGITS + NUMBER_SYMBOLS
  const UPPER_LIMIT: u64 := (U64_MAX - (NUMBER_ALL_CHARACTERS + 1)) as u64

  /** The random bytes divide into whole 64-bit words, one per buffer slot,
      as the constructor's static_assert demands. */
  lemma BufferSizes()
    ensures PASSWORD_BUFFER_BYTES == 121
    ensures NUMBER_RANDOM_BYTES % 8 == 0 && NUMBER_RANDOM_BYTES / 8 == PASSWORD_BUFFER_BYTES
    ensures ENTROPY_BUFFER_BYTES == ALGORITHM_BYTES + MAX_ENTROPY_LENGTH + 1 == 185
  {
  }

  /** The live `process_pw_size_` asserts a maximum of 125 at compile time,
      which the header's 120 contradicts. */
  lemma MaxLengthContradictsStaticAssert()
    ensures MAX_PASSWORD_LENGTH != 125
  {
  }

  /** The limit sits one below the C versions' limit. */
  lemma TableAndLimit()
    ensures NUMBER_ALL_CHARACTERS == 94
    ensures UPPER_LIMIT as int == U64_MAX - 95 == SscHeader.UPPER_LIMIT as int - 1
  {
  }
}
