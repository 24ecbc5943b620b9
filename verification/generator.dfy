/** One run of the generator after the arguments are processed: build the
    table, map the random words to table bytes, print. The CSPRNG, the
    optional keyboard entropy and the memory handling are not part of this
    model; the random words are a parameter. */
module Generator {
  import opened Words
  import opened Outcomes
  import Alphabet
  import opened Settings
  import CxxArgs
  import opened Mapper
  import Format

  /** The class switches the C++ option fields hold. */
  function OptionClasses(o: CxxArgs.Options): Alphabet.Classes {
    Alphabet.Classes(o.lower, o.upper, o.digits, o.symbols)
  }

  /** `set_character_table` on the C context: the classes come from the
      flag bits; only the table and `num_chars` change. */
  function SetContextTable(ctx: Context): (r: Status<Context>)
    requires |ctx.characterTable| == Alphabet.TABLE_SIZE
    ensures r.Continue? <==> ClassesOf(ctx.flags).Any()
    ensures !r.Continue? ==> r == ExitFailure(NoCharacterSets)
    ensures r.Continue? ==>
      var c := ClassesOf(ctx.flags);
      && r.value == ctx.(characterTable := r.value.characterTable, numChars := r.value.numChars)
      && |r.value.characterTable| == Alphabet.TABLE_SIZE
      && r.value.numChars == ctx.numChars + Alphabet.Count(c)
      && r.value.characterTable[..Alphabet.Count(c)] == Alphabet.Enabled(c)
  {
    var t :- Alphabet.SetCharacterTable(ClassesOf(ctx.flags), Alphabet.Table(ctx.characterTable, ctx.numChars));
    Continue(ctx.(characterTable := t.characters, numChars := t.numChars))
  }

  /** `set_character_table_` on the C++ fields: classes are taken from the
      four class options; `number_characters` grows by their sizes. */
  function SetOptionsTable(opts: CxxArgs.Options, t: Alphabet.Table): (r: Status<Alphabet.Table>)
    requires |t.characters| == Alphabet.TABLE_SIZE
    ensures r.Continue? <==> opts.lower || opts.upper || opts.digits || opts.symbols
    ensures !r.Continue? ==> r == ExitFailure(NoCharacterSets)
    ensures r.Continue? ==>
      && |r.value.characters| == Alphabet.TABLE_SIZE
      && r.value.numChars == t.numChars + (if opts.lower then 26 else 0) + (if opts.upper then 26 else 0)
                                        + (if opts.digits then 10 else 0) + (if opts.symbols then 32 else 0)
      && r.value.characters[..r.value.numChars - t.numChars] == Alphabet.Enabled(OptionClasses(opts))
  {
    Alphabet.SetCharacterTable(OptionClasses(opts), t)
  }

  /** The printed text of a run as the sources write it: the buffer up to
      `strlen`, formatted or followed by a newline. */
  function OutputAsWritten(b: Build, c: Alphabet.Classes, t: Alphabet.Table, requested: nat,
                           formatting: bool, words: seq<u64>, beyond: u8): (r: Status<seq<u8>>)
    requires b.Valid() && |t.characters| == Alphabet.TABLE_SIZE && t.numChars == 0
    requires requested < b.pwBufSize && requested <= |words|
    ensures r.Continue? <==> c.Any()
    ensures !r.Continue? ==> r == ExitFailure(NoCharacterSets)
  {
    var table :- Alphabet.SetCharacterTable(c, t);
    Alphabet.CountBounds(c);
    var g := GeneratePasswordAsWritten(b, table.characters, table.numChars, requested, words, beyond);
    Continue(Format.Emit(g.buffer[..g.size], formatting))
  }

  /** The printed text of a run with the intended mapper. */
  function Output(upper: u64, c: Alphabet.Classes, t: Alphabet.Table, requested: nat,
                  formatting: bool, words: seq<u64>): (r: Status<seq<u8>>)
    requires Alphabet.TABLE_SIZE <= upper as int
    requires |t.characters| == Alphabet.TABLE_SIZE && t.numChars == 0 && requested <= |words|
    ensures r.Continue? <==> c.Any()
    ensures !r.Continue? ==> r == ExitFailure(NoCharacterSets)
  {
    var table :- Alphabet.SetCharacterTable(c, t);
    Alphabet.CountBounds(c);
    Continue(Format.Emit(GeneratePassword(upper, table.characters, table.numChars, words[..requested]), formatting))
  }

  /** No byte of any class is a space or a newline. */
  lemma AlphabetHasNoSeparators(c: Alphabet.Classes, pw: seq<u8>)
    requires forall i :: 0 <= i < |pw| ==> Alphabet.InAlphabet(c, pw[i])
    ensures Format.NoSeparatorBytes(pw)
  {
  }

  /** What a run with the intended mapper prints: deleting separators and
      newlines leaves exactly `requested` characters, each from an enabled
      class; without formatting the text is those characters and one
      newline, with formatting it is their block layout. */
  lemma {:induction false} OutputContents(upper: u64, c: Alphabet.Classes, t: Alphabet.Table, requested: nat,
                                          formatting: bool, words: seq<u64>)
    requires Alphabet.TABLE_SIZE <= upper as int
    requires |t.characters| == Alphabet.TABLE_SIZE && t.numChars == 0 && requested <= |words|
    requires c.Any()
    ensures var out := Output(upper, c, t, requested, formatting, words).value;
      var pw := Format.Strip(out);
      && |pw| == requested
      && (forall i :: 0 <= i < |pw| ==> Alphabet.InAlphabet(c, pw[i]))
      && (!formatting ==> out == pw + Format.LINE_END)
      && (formatting ==> out == Format.Formatted(pw))
  {
    var table := Alphabet.SetCharacterTable(c, t).value;
    Alphabet.CountBounds(c);
    var pw := GeneratePassword(upper, table.characters, table.numChars, words[..requested]);
    forall i | 0 <= i < |pw|
      ensures Alphabet.InAlphabet(c, pw[i])
    {
      assert pw[i] in Alphabet.Enabled(c);
      Alphabet.TableMembership(c, pw[i]);
    }
    AlphabetHasNoSeparators(c, pw);
    Format.EmitRoundTrip(pw, formatting);
  }

  /** In the C builds the program prints what the intended mapper would
      whenever no random word equals `local_limit`. */
  lemma OutputAsWrittenMatchesIntended(b: Build, c: Alphabet.Classes, t: Alphabet.Table, requested: nat,
                                       formatting: bool, words: seq<u64>, beyond: u8)
    requires b.Valid() && b.rule == RoundDown
    requires |t.characters| == Alphabet.TABLE_SIZE && t.numChars == 0
    requires requested < b.pwBufSize && requested <= |words|
    requires c.Any()
    requires forall i :: 0 <= i < requested ==> words[i] != LocalLimitOf(b, Alphabet.Count(c))
    ensures OutputAsWritten(b, c, t, requested, formatting, words, beyond)
         == Output(b.upperLimit, c, t, requested, formatting, words)
  {
    var table := Alphabet.SetCharacterTable(c, t).value;
    Alphabet.CountBounds(c);
    var n := table.numChars;
    forall x | x in table.characters[..n] ensures x != NUL {
      Alphabet.TableMembership(c, x);
    }
    AsWrittenMatchesIntended(b, table.characters, n, requested, words, beyond);
  }

  /** The C programs after argument processing: table from the flags,
      size and formatting from the context. */
  function RunC(b: Build, ctx: Context, words: seq<u64>, beyond: u8): (r: Status<seq<u8>>)
    requires b.Valid() && b.rule == RoundDown
    requires |ctx.characterTable| == Alphabet.TABLE_SIZE && ctx.numChars == 0
    requires 0 <= ctx.requestedPwSize < b.pwBufSize && ctx.requestedPwSize <= |words|
    ensures r.Continue? <==> SetContextTable(ctx).Continue?
    ensures r.Continue? <==> ClassesOf(ctx.flags).Any()
  {
    OutputAsWritten(b, ClassesOf(ctx.flags), Alphabet.Table(ctx.characterTable, ctx.numChars),
                    ctx.requestedPwSize, ctx.flags & USE_FORMATTING != 0, words, beyond)
  }

  /** The C++ program after argument processing. */
  function RunCxx(opts: CxxArgs.Options, t: Alphabet.Table, words: seq<u64>, beyond: u8): (r: Status<seq<u8>>)
    requires |t.characters| == Alphabet.TABLE_SIZE && t.numChars == 0
    requires 0 <= opts.requestedPasswordSize < CXX_BUILD.pwBufSize && opts.requestedPasswordSize <= |words|
    ensures r.Continue? <==> OptionClasses(opts).Any()
    ensures !r.Continue? ==> r == ExitFailure(NoCharacterSets)
  {
    BuildsValid();
    OutputAsWritten(CXX_BUILD, OptionClasses(opts), t, opts.requestedPasswordSize, opts.formatting, words, beyond)
  }
}
