/** The flag bits of Threegen.h and the `Threegen` context record that the
    C versions thread through argument processing and generation. The
    Base/Skc sources (threegen.c, args.c) read and write `ctx->flags` and
    the `THREEGEN_USE_*` bits just as the SSC sources do, so both are
    modelled on this record. */
module Settings {
  import opened Words
  import Alphabet

  const USE_LCASE: bv8 := 0x01
  const USE_UCASE: bv8 := 0x02
  const USE_DIGITS: bv8 := 0x04
  const USE_SYMBOLS: bv8 := 0x08
  const USE_FORMATTING: bv8 := 0x10
  const GET_ENTROPY: bv8 := 0x20
  /** The bits `-a` sets. */
  const USE_ALL_CHARS: bv8 := USE_LCASE | USE_UCASE | USE_DIGITS | USE_SYMBOLS

  /** The `Threegen` record: table, requested size, table size, flags. */
  datatype Context = Context(characterTable: seq<u8>, requestedPwSize: int, numChars: int, flags: bv8)

  predicate SingleBit(x: bv8) { x != 0 && x & (x - 1) == 0 }

  /** The six flags are distinct single bits, so the class bits and the
      option bits can be set and read independently. */
  lemma FlagBits()
    ensures SingleBit(USE_LCASE) && SingleBit(USE_UCASE) && SingleBit(USE_DIGITS)
    ensures SingleBit(USE_SYMBOLS) && SingleBit(USE_FORMATTING) && SingleBit(GET_ENTROPY)
    ensures USE_LCASE & USE_UCASE == 0 && USE_LCASE & USE_DIGITS == 0 && USE_LCASE & USE_SYMBOLS == 0
    ensures USE_UCASE & USE_DIGITS == 0 && USE_UCASE & USE_SYMBOLS == 0 && USE_DIGITS & USE_SYMBOLS == 0
    ensures USE_ALL_CHARS & (USE_FORMATTING | GET_ENTROPY) == 0
    ensures USE_FORMATTING & GET_ENTROPY == 0
  {
  }

  /** `flags |= bits`: the given bits end up set and no other bit changes,
      in particular none is cleared. */
  function SetBits(flags: bv8, bits: bv8): (r: bv8)
    ensures r & bits == bits
    ensures r & !bits == flags & !bits
    ensures r & flags == flags
  {
    flags | bits
  }

  /** Setting bits twice is setting them once, and the order in which
      switches set their bits does not matter. */
  lemma SetBitsIdempotentCommutative(flags: bv8, a: bv8, b: bv8)
    ensures SetBits(SetBits(flags, a), a) == SetBits(flags, a)
    ensures SetBits(SetBits(flags, a), b) == SetBits(SetBits(flags, b), a)
  {
  }

  /** The classes the `if (ctx->flags & THREEGEN_USE_*)` tests select: some
      class is on exactly when one of the four bits of `-a` is set, and all
      four exactly when every one of them is. */
  function ClassesOf(flags: bv8): (r: Alphabet.Classes)
    ensures r.Any() <==> flags & USE_ALL_CHARS != 0
    ensures r.lower && r.upper && r.digits && r.symbols <==> flags & USE_ALL_CHARS == USE_ALL_CHARS
  {
    Alphabet.Classes(flags & USE_LCASE != 0, flags & USE_UCASE != 0,
                     flags & USE_DIGITS != 0, flags & USE_SYMBOLS != 0)
  }

  /** The formatting and entropy bits play no part in the class selection:
      clearing every bit outside `-a`'s four selects the same classes. */
  lemma ClassesIgnoreOptionBits(flags: bv8)
    ensures ClassesOf(flags) == ClassesOf(flags & USE_ALL_CHARS)
    ensures ClassesOf(flags) == ClassesOf(flags | USE_FORMATTING | GET_ENTROPY)
  {
  }
}

/** The check both C versions apply to the password-size argument
    (`password_size_handler` in args.c, `password_size_argproc` in
    CommandLineArg.c). */
module PasswordSize {
  import opened Outcomes

  /** `shift_left_digits` / `SSC_Cstr_shiftDigitsToFront` and `atoi` are not
      part of this model: the first moves the digits of a string to its
      front and returns how many there were, the second reads the number. */
  datatype NumberLib = NumberLib(shiftDigits: string -> (int, string), atoi: string -> int)

  /** The size the string asks for, per the library functions. */
  function DigitCount(text: string, lib: NumberLib): int { lib.shiftDigits(text).0 }
  function Value(text: string, lib: NumberLib): int { lib.atoi(lib.shiftDigits(text).1) }

  /** The string is accepted exactly when it has 1 to 3 characters, 1 to 3
      digits and a value from 1 to `max`; the size stored is that value. A
      too-short string, too few digits or a value below 1 fails with the
      minimum-size message, the other failures with the maximum-size one. */
  function CheckC(text: string, lib: NumberLib, max: int): (r: Status<int>)
    ensures r.Continue? <==>
      1 <= |text| <= 3 && 1 <= DigitCount(text, lib) <= 3 && 1 <= Value(text, lib) <= max
    ensures r.Continue? ==> r.value == Value(text, lib) && 1 <= r.value <= max
    ensures |text| < 1 ==> r == ExitFailure(MinPwSize)
    ensures |text| > 3 ==> r == ExitFailure(MaxPwSize)
    ensures !r.Continue? ==> r == ExitFailure(MinPwSize) || r == ExitFailure(MaxPwSize)
  {
    if |text| < 1 then ExitFailure(MinPwSize)
    else if |text| > 3 then ExitFailure(MaxPwSize)
    else
      var (digits, shifted) := lib.shiftDigits(text);
      if digits < 1 then ExitFailure(MinPwSize)
      else if digits > 3 then ExitFailure(MaxPwSize)
      else
        var size := lib.atoi(shifted);
        if size < 1 then ExitFailure(MinPwSize)
        else if size > max then ExitFailure(MaxPwSize)
        else Continue(size)
  }
}
