/** The word-to-character mapper, `generate_password_`. Each random 64-bit
    word `p` is mapped to a table offset by splitting `[0, local_limit]`
    into `num_chars` buckets of `quanta_per_char` words; words above
    `local_limit` all go to the last active character. The C versions and
    the C++ version differ in the upper limit and in how `local_limit` is
    derived from it, which `Build` records. */
module Mapper {
  import opened Words
  import Alphabet
  import SscHeader
  import BaseHeader
  import CxxHeader

  /** How `local_limit` is derived from the upper limit. */
  datatype LimitRule =
    | RoundDown      // upper - upper % n, the C versions
    | AddRemainder   // upper + upper % n, the C++ version

  /** The build-specific parameters of `generate_password_`. */
  datatype Build = Build(upperLimit: u64, pwBufSize: nat, rule: LimitRule)
  {
    /** The limit leaves every alphabet size many quanta, and the C++ rule
        cannot overflow. */
    predicate Valid() {
      && Alphabet.TABLE_SIZE * Alphabet.TABLE_SIZE <= upperLimit as int
      && 1 <= pwBufSize
      && (rule == AddRemainder ==> upperLimit as int + Alphabet.TABLE_SIZE <= U64_MAX)
    }
  }

  const SSC_BUILD: Build := Build(SscHeader.UPPER_LIMIT, SscHeader.PW_BUF_SIZE, RoundDown)
  const BASE_BUILD: Build := Build(BaseHeader.UPPER_LIMIT, BaseHeader.PW_BUF_SIZE, RoundDown)
  const CXX_BUILD: Build := Build(CxxHeader.UPPER_LIMIT, CxxHeader.PASSWORD_BUFFER_BYTES, AddRemainder)

  /** The number of active table entries, `num_chars`, after a successful
      `set_character_table` from zero. */
  predicate ActiveSize(n: nat) { 1 <= n <= Alphabet.TABLE_SIZE }

  /** All three builds meet `Valid`; in particular `Upper_Limit + 93` fits
      in 64 bits, so the C++ addition never wraps. */
  lemma BuildsValid()
    ensures SSC_BUILD.Valid() && BASE_BUILD.Valid() && CXX_BUILD.Valid()
    ensures CXX_BUILD.upperLimit as int + (Alphabet.TABLE_SIZE - 1) < U64_MAX
  {
  }

  // ---------------------------------------------------------------------
  // Division facts.

  lemma MulMonotone(a: int, b: int, q: int)
    requires a <= b && q >= 0
    ensures a * q <= b * q
  {
  }

  /** a == k*n + r with 0 <= r < n determines quotient and remainder. */
  lemma DivModUnique(a: int, n: int, k: int, r: int)
    requires n > 0 && 0 <= r < n && a == k * n + r
    ensures a / n == k && a % n == r
  {
    var k', r' := a / n, a % n;
    assert a == k' * n + r';
    if k' < k {
      MulMonotone(k' + 1, k, n);
    } else if k < k' {
      MulMonotone(k + 1, k', n);
    }
  }

  /** Rounding down to a multiple of q before dividing changes nothing. */
  lemma RoundThenDivide(p: int, q: int)
    requires p >= 0 && q > 0
    ensures p - p % q >= 0
    ensures (p - p % q) / q == p / q
  {
    DivModUnique(p - p % q, q, p / q, 0);
  }

  /** If p < n*q then p/q < n. */
  lemma QuotientBelow(p: int, q: int, n: int)
    requires p >= 0 && q > 0 && p < n * q
    ensures p / q < n
  {
    if p / q >= n {
      MulMonotone(n, p / q, q);
    }
  }

  /** If a >= k*n then a/n >= k. */
  lemma QuotientAtLeast(a: int, n: int, k: int)
    requires n > 0 && a >= k * n
    ensures a / n >= k
  {
    if a / n < k {
      MulMonotone(a / n + 1, k, n);
    }
  }

  /** A limit within n of an upper limit of at least 94 squared, and either
      a multiple of n or not below the upper limit, holds at least n
      quanta of size n. */
  lemma QuotientAtLeastSize(local: int, upper: int, n: int)
    requires 1 <= n <= Alphabet.TABLE_SIZE && Alphabet.TABLE_SIZE * Alphabet.TABLE_SIZE <= upper
    requires upper - n < local && (local % n == 0 || upper <= local)
    ensures local / n >= n
  {
    MulMonotone(n, Alphabet.TABLE_SIZE, n);
    MulMonotone(n, Alphabet.TABLE_SIZE, Alphabet.TABLE_SIZE);
    if local % n == 0 {
      // local + n - 1 >= n * n has the same quotient as local.
      DivModUnique(local + n - 1, n, local / n, n - 1);
      QuotientAtLeast(local + n - 1, n, n);
    } else {
      QuotientAtLeast(local, n, n);
    }
  }

  /** The rounded quotient of a word below n*q is a bucket index below n. */
  lemma BucketOf(p: int, q: int, n: int)
    requires p >= 0 && q > 0 && p < n * q
    ensures p - p % q >= 0
    ensures (p - p % q) / q == p / q < n
  {
    RoundThenDivide(p, q);
    QuotientBelow(p, q, n);
  }

  // ---------------------------------------------------------------------
  // local_limit and quanta_per_char.

  /** `local_limit` of the C versions: the largest multiple of n that does
      not exceed the upper limit. */
  function LocalLimit(upper: u64, n: nat): (r: u64)
    requires 1 <= n <= upper as int
    ensures r as int % n == 0
    ensures r <= upper && upper as int - r as int < n
    ensures r as int >= n
  {
    DivModUnique(upper as int, n, upper as int / n, upper as int % n);
    DivModUnique(upper as int - upper as int % n, n, upper as int / n, 0);
    MulMonotone(1, upper as int / n, n);
    upper - upper % n as u64
  }

  /** `quanta_per_char` of the C versions: n buckets of this many words
      exactly cover `[0, local_limit)`. */
  function QuantaPerChar(upper: u64, n: nat): (q: u64)
    requires 1 <= n <= upper as int
    ensures q >= 1
    ensures n * q as int == LocalLimit(upper, n) as int
  {
    var local := LocalLimit(upper, n);
    DivModUnique(local as int, n, local as int / n, 0);
    local / n as u64
  }

  /** `local_limit` of the C++ version as written: the remainder is added
      instead of subtracted. It stays below 2^64 for every valid build. */
  function LocalLimitAddRemainder(upper: u64, n: nat): (r: u64)
    requires 1 <= n && upper as int + n <= U64_MAX
    ensures upper <= r && r as int - upper as int < n
  {
    upper + upper % n as u64
  }

  /** `local_limit` as the build computes it. */
  function LocalLimitOf(b: Build, n: nat): (r: u64)
    requires b.Valid() && ActiveSize(n)
    ensures b.rule == RoundDown ==> r == LocalLimit(b.upperLimit, n)
    ensures b.rule == AddRemainder ==> r == LocalLimitAddRemainder(b.upperLimit, n)
  {
    match b.rule
    case RoundDown => LocalLimit(b.upperLimit, n)
    case AddRemainder => LocalLimitAddRemainder(b.upperLimit, n)
  }

  /** `quanta_per_char` as the build computes it: local_limit / n. It is at
      least n, so a remainder below n is less than one quantum. */
  function QuantaOf(b: Build, n: nat): (q: u64)
    requires b.Valid() && ActiveSize(n)
    ensures q as int >= n
    ensures n * q as int <= LocalLimitOf(b, n) as int < n * q as int + n
  {
    var local := LocalLimitOf(b, n);
    DivModUnique(local as int, n, local as int / n, local as int % n);
    QuotientAtLeastSize(local as int, b.upperLimit as int, n);
    local / n as u64
  }

  // ---------------------------------------------------------------------
  // The offset of one word.

  /** The offset `generate_password_` computes for the word p, as written:
      the word is rounded down to a multiple of a quantum and divided by it
      when `p <= local_limit`; otherwise it is the last active offset. */
  function OffsetAsWritten(b: Build, n: nat, p: u64): (off: u64)
    requires b.Valid() && ActiveSize(n)
    ensures p <= LocalLimitOf(b, n) ==> off as int == p as int / QuantaOf(b, n) as int
    ensures p > LocalLimitOf(b, n) ==> off as int == n - 1
  {
    var local := LocalLimitOf(b, n);
    var q := QuantaOf(b, n);
    RoundThenDivide(p as int, q as int);
    if p <= local then (p - p % q) / q else (n - 1) as u64
  }

  /** In the C versions the offset stays inside the active table for words
      below `local_limit`, lands exactly on n, one past the active table,
      for the single word equal to `local_limit`, and is n - 1 above it. */
  lemma RoundDownOffsetCases(b: Build, n: nat, p: u64)
    requires b.Valid() && ActiveSize(n) && b.rule == RoundDown
    ensures p < LocalLimitOf(b, n) ==> OffsetAsWritten(b, n, p) as int < n
    ensures p == LocalLimitOf(b, n) ==> OffsetAsWritten(b, n, p) as int == n
    ensures p > LocalLimitOf(b, n) ==> OffsetAsWritten(b, n, p) as int == n - 1
    ensures OffsetAsWritten(b, n, p) as int < n <==> p != LocalLimitOf(b, n)
  {
    var local, q := LocalLimitOf(b, n), QuantaOf(b, n);
    assert n * q as int == local as int;
    if p < local {
      QuotientBelow(p as int, q as int, n);
    } else if p == local {
      DivModUnique(p as int, q as int, n, 0);
    }
  }

  /** In the C++ version the offset reaches n for every word from
      n * quanta_per_character up to `local_limit`, a range that is never
      empty; below it the offset stays inside the active table. */
  lemma AddRemainderOffsetCases(b: Build, n: nat, p: u64)
    requires b.Valid() && ActiveSize(n) && b.rule == AddRemainder
    ensures OffsetAsWritten(b, n, p) as int <= n
    ensures OffsetAsWritten(b, n, p) as int == n
            <==> n * QuantaOf(b, n) as int <= p as int <= LocalLimitOf(b, n) as int
    ensures n * QuantaOf(b, n) as int <= LocalLimitOf(b, n) as int
  {
    var local, q := LocalLimitOf(b, n), QuantaOf(b, n);
    if p as int < n * q as int {
      QuotientBelow(p as int, q as int, n);
    } else if p <= local {
      DivModUnique(p as int, q as int, n, p as int - n * q as int);
    }
  }

  /** The equation the C++ source states in its own comment,
      local_limit == number_characters * quanta_per_character, fails for the
      lowercase-only table (n = 26): 23 words, from 26 * quanta up to
      local_limit, map to offset 26. */
  lemma AddRemainderBreaksEquation()
    ensures CXX_BUILD.Valid()
    ensures LocalLimitOf(CXX_BUILD, 26) as int != 26 * QuantaOf(CXX_BUILD, 26) as int
    ensures LocalLimitOf(CXX_BUILD, 26) as int - 26 * QuantaOf(CXX_BUILD, 26) as int == 22
    ensures OffsetAsWritten(CXX_BUILD, 26, LocalLimitOf(CXX_BUILD, 26)) == 26
  {
    AddRemainderOffsetCases(CXX_BUILD, 26, LocalLimitOf(CXX_BUILD, 26));
  }

  /** The offset the mapper is meant to compute: the C round-down limit and
      a strict `p < local_limit` test, so that the n buckets of quanta words
      below the limit map one-to-one onto the active table. */
  function Offset(upper: u64, n: nat, p: u64): (off: u64)
    requires ActiveSize(n) && n <= upper as int
    ensures off as int < n
    ensures p < LocalLimit(upper, n) ==> off as int == p as int / QuantaPerChar(upper, n) as int
    ensures p >= LocalLimit(upper, n) ==> off as int == n - 1
  {
    var local := LocalLimit(upper, n);
    var q := QuantaPerChar(upper, n) as int;
    if p < local then
      BucketOf(p as int, q, n);
      ((p as int - p as int % q) / q) as u64
    else (n - 1) as u64
  }

  /** p/q == k exactly when p lies in [k*q, (k+1)*q). */
  lemma QuotientIff(p: int, q: int, k: int)
    requires p >= 0 && q > 0
    ensures p / q == k <==> k * q <= p < (k + 1) * q
  {
    if k * q <= p < (k + 1) * q {
      DivModUnique(p, q, k, p - k * q);
    } else {
      var j := p / q;
      assert j * q <= p < (j + 1) * q;
      if j < k {
        MulMonotone(j + 1, k, q);
      } else if k < j {
        MulMonotone(k + 1, j, q);
      }
    }
  }

  /** Below the limit every offset k < n receives exactly the quanta words
      of its own bucket [k*q, (k+1)*q), so no character is favoured there. */
  lemma OffsetBuckets(upper: u64, n: nat, p: u64, k: nat)
    requires ActiveSize(n) && n <= upper as int && k < n
    requires p < LocalLimit(upper, n)
    ensures Offset(upper, n, p) as int == k
            <==> k * QuantaPerChar(upper, n) as int <= p as int < (k + 1) * QuantaPerChar(upper, n) as int
  {
    QuotientIff(p as int, QuantaPerChar(upper, n) as int, k);
  }

  /** The C mapper and the intended one agree on every word except
      `local_limit` itself. */
  lemma AsWrittenAgreesOffLimit(b: Build, n: nat, p: u64)
    requires b.Valid() && ActiveSize(n) && b.rule == RoundDown
    ensures p != LocalLimitOf(b, n) <==> OffsetAsWritten(b, n, p) == Offset(b.upperLimit, n, p)
  {
    RoundDownOffsetCases(b, n, p);
  }

  // ---------------------------------------------------------------------
  // The password buffer.

  /** The byte `character_table[offset]` reads. Offset 94 is one past the
      array and reads whatever the structure holds next, `beyond`. */
  function TableByte(table: seq<u8>, offset: u64, beyond: u8): u8 {
    if offset as int < |table| then table[offset] else beyond
  }

  /** The zeroed-then-filled password buffer and the `strlen` returned. */
  datatype Generated = Generated(buffer: seq<u8>, size: nat)

  /** `generate_password_` as written: zero `pwBufSize` bytes, write the
      table byte for each of the first `requested` words, return `strlen`. */
  function GeneratePasswordAsWritten(b: Build, table: seq<u8>, n: nat, requested: nat,
                                     words: seq<u64>, beyond: u8): (g: Generated)
    requires b.Valid() && ActiveSize(n) && |table| == Alphabet.TABLE_SIZE
    requires requested < b.pwBufSize && requested <= |words|
    ensures |g.buffer| == b.pwBufSize
    ensures forall i :: requested <= i < b.pwBufSize ==> g.buffer[i] == NUL
    ensures g.size <= requested
    ensures g.buffer[g.size] == NUL && NUL !in g.buffer[..g.size]
  {
    var buffer := seq(b.pwBufSize, i requires 0 <= i < b.pwBufSize =>
      if i < requested then TableByte(table, OffsetAsWritten(b, n, words[i]), beyond) else NUL);
    assert buffer[requested] == NUL;
    Generated(buffer, StrLen(buffer))
  }

  /** When every offset is inside the active table and no active table byte
      is NUL, `strlen` sees the whole password. */
  lemma {:induction false} AsWrittenFullLength(b: Build, table: seq<u8>, n: nat, requested: nat,
                                              words: seq<u64>, beyond: u8)
    requires b.Valid() && ActiveSize(n) && |table| == Alphabet.TABLE_SIZE
    requires requested < b.pwBufSize && requested <= |words|
    requires NUL !in table[..n]
    requires forall i :: 0 <= i < requested ==> OffsetAsWritten(b, n, words[i]) as int < n
    ensures GeneratePasswordAsWritten(b, table, n, requested, words, beyond).size == requested
  {
  }

  /** The intended mapper: one table byte per word, always from the active
      table. */
  function GeneratePassword(upper: u64, table: seq<u8>, n: nat, words: seq<u64>): (pw: seq<u8>)
    requires ActiveSize(n) && n <= upper as int && n <= |table|
    ensures |pw| == |words|
    ensures forall i :: 0 <= i < |pw| ==> pw[i] in table[..n]
  {
    seq(|words|, i requires 0 <= i < |words| => table[..n][Offset(upper, n, words[i])])
  }

  /** In the C builds, whenever no word equals `local_limit`, the buffer the
      program fills holds the intended password followed by NULs, and
      `strlen` returns its full length. */
  lemma {:induction false} AsWrittenMatchesIntended(b: Build, table: seq<u8>, n: nat, requested: nat,
                                                   words: seq<u64>, beyond: u8)
    requires b.Valid() && ActiveSize(n) && |table| == Alphabet.TABLE_SIZE && b.rule == RoundDown
    requires requested < b.pwBufSize && requested <= |words|
    requires NUL !in table[..n]
    requires forall i :: 0 <= i < requested ==> words[i] != LocalLimitOf(b, n)
    ensures var g := GeneratePasswordAsWritten(b, table, n, requested, words, beyond);
      g.size == requested && g.buffer[..requested] == GeneratePassword(b.upperLimit, table, n, words[..requested])
  {
    forall i | 0 <= i < requested
      ensures OffsetAsWritten(b, n, words[i]) as int < n
      ensures OffsetAsWritten(b, n, words[i]) == Offset(b.upperLimit, n, words[i])
    {
      RoundDownOffsetCases(b, n, words[i]);
      AsWrittenAgreesOffLimit(b, n, words[i]);
    }
    AsWrittenFullLength(b, table, n, requested, words, beyond);
  }
}

/** The consequence of the C off-by-one: a word equal to `local_limit`
    reads the byte just past the active table, which in a zero-initialised
    context is NUL, and `strlen` then cuts the password short. */
module Truncation {
  import opened Words
  import opened Outcomes
  import Alphabet
  import SscHeader
  import opened Mapper

  /** The first word equal to `local_limit` ends the password: `strlen`
      returns its index when the table byte at offset n is NUL. */
  lemma {:induction false} FirstLimitWordEndsPassword(b: Build, table: seq<u8>, n: nat, requested: nat,
                                                      words: seq<u64>, beyond: u8, i: nat)
    requires b.Valid() && ActiveSize(n) && |table| == Alphabet.TABLE_SIZE && b.rule == RoundDown
    requires requested < b.pwBufSize && requested <= |words|
    requires NUL !in table[..n] && n < |table| && table[n] == NUL
    requires i < requested && words[i] == LocalLimitOf(b, n)
    requires forall j :: 0 <= j < i ==> words[j] != LocalLimitOf(b, n)
    ensures GeneratePasswordAsWritten(b, table, n, requested, words, beyond).size == i
  {
    var g := GeneratePasswordAsWritten(b, table, n, requested, words, beyond);
    RoundDownOffsetCases(b, n, words[i]);
    assert g.buffer[i] == NUL;
    forall j | 0 <= j < i
      ensures g.buffer[j] != NUL
    {
      RoundDownOffsetCases(b, n, words[j]);
      var off := OffsetAsWritten(b, n, words[j]);
      assert g.buffer[j] == table[..n][off];
    }
  }

  /** A concrete instance: `3gen -d 4` with a zeroed context (digits only,
      so n = 10) and a first random word equal to `local_limit`
      (2^64 - 96) prints an empty password. */
  lemma DigitsPasswordTruncated(words: seq<u64>, beyond: u8)
    requires |words| == SscHeader.NUM_RAND_WORDS
    requires words[0] as int == 0x1_0000_0000_0000_0000 - 96
    ensures SSC_BUILD.Valid()
    ensures var digits := Alphabet.Classes(false, false, true, false);
      var r := Alphabet.SetCharacterTable(digits, Alphabet.Table(seq(Alphabet.TABLE_SIZE, _ => NUL), 0));
      && r.Continue? && r.value.numChars == 10
      && GeneratePasswordAsWritten(SSC_BUILD, r.value.characters, 10, 4, words, beyond).size == 0
  {
    BuildsValid();
    var digits := Alphabet.Classes(false, false, true, false);
    var zero := Alphabet.Table(seq(Alphabet.TABLE_SIZE, _ => NUL), 0);
    var r := Alphabet.SetCharacterTable(digits, zero);
    var table := r.value.characters;
    assert table[..10] == Alphabet.Enabled(digits);
    forall x | x in table[..10] ensures x != NUL {
      Alphabet.TableMembership(digits, x);
    }
    assert table[10..] == zero.characters[10..];
    assert table[10] == NUL;
    assert LocalLimitOf(SSC_BUILD, 10) == words[0];
    FirstLimitWordEndsPassword(SSC_BUILD, table, 10, 4, words, beyond, 0);
  }
}
