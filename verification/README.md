# 3gen in Dafny

A model of the core of 3gen, a command-line password generator. The
repository carries three drifted copies of the same program:

- the C++ `Password_Generator` (password_generator.cc / .hh);
- the SSC C version (Threegen.c, Threegen.h, CommandLineArg.c);
- the Base C version (threegen.c, threegen.h, args.c).

Each copy does the same four things:

- It reads switches (`-l -u -d -s -a -f -E -h`) and a password size of 1 to
  3 digits. The C versions also accept the long forms of all eight switches.
  The C++ version has the long forms of all but `-E`: it has no `--entropy`.
- It builds a 94-byte character table. The enabled classes go first, in
  the order lowercase, uppercase, digits, symbols.
- It maps one 64-bit random word to each password character. It scales the
  word range to the table size with an integer "local limit" and "quanta
  per character".
- It prints the password, optionally in blocks of five characters with
  five blocks per line.

The model is functional. Unsigned 64-bit values are the bounded newtype
`Words.u64`, so Dafny's `/` and `%` agree with C's unsigned division. The
random words and the library calls the model cannot see (digit shifting,
`atoi`, argument classification, matching and parsing) are parameters; the
keyboard entropy and the CSPRNG are left out. Failing checks (`SSC_assertMsg`, `Base_assert_msg`,
`errx`) and `exit(EXIT_SUCCESS)` after the help text become the `Status`
results `ExitFailure(reason)` and `ExitSuccess`.

Modules, following the program's structure:

- `Words`: the byte and word types, `strlen`, and the `size_t` subtraction
  in `long_parser`.
- `Outcomes`: the `Status` result and the failure reasons.
- `SscHeader`, `BaseHeader`, `CxxHeader`: the constants of the three
  headers.
- `Alphabet`: the character classes and `set_character_table`.
- `Mapper`: `local_limit`, `quanta_per_char`, the word-to-offset mapping as
  written, a corrected mapping, and `generate_password_`.
- `Truncation`: what the C off-by-one does to the printed password.
- `Format`: the block formatter and its inverse.
- `Settings`: the flag bits and the C context record.
- `PasswordSize`: the C size check.
- `BaseArgs`: the parsers and handlers of args.c.
- `SscArgs`: the processors of CommandLineArg.c and the switch tables of
  Threegen.c.
- `CxxArgs`: `process_arguments_` and `process_pw_size_` of the C++
  version.
- `Generator`: one whole run, from the context or options to the printed
  bytes.

The three variants differ in a few constants:

- The C upper limit is `UINT64_MAX - 94`; the C++ one is `UINT64_MAX - 95`.
- The C maximum size is 125; the C++ header's is 120.
- The C versions round the limit down (`UPPER_LIMIT - UPPER_LIMIT % n`).
  The C++ version adds the remainder (`Upper_Limit + Upper_Limit % n`).

A `Mapper.Build` value holds these differences. `SSC_BUILD`, `BASE_BUILD`
and `CXX_BUILD` instantiate it.

In the C versions a word equal to `local_limit` maps to offset n, one past
the active table, because the test is `p <= local_limit`. The comment at
password_generator.cc:281-285 describes a local limit that is an exact
multiple of n. `Mapper.RoundDownOffsetCases` states what the code does, and
"Findings" records the consequence.

## Model

| member | source | states |
|---|---|---|
| Words.StrLen | Threegen.c:132 | `strlen`: the index of the first NUL, with no NUL before it |
| Words.SizeMinusTwo | args.c:35 | `strlen(str) - 2` as a `size_t`: the true difference for lengths of at least 2, and a huge value (no `case` matches) for shorter strings |
| SscHeader.BufferSizes | Threegen.h:19-22 | the password buffer is `MAX_PW_SIZE + 1 = 126` bytes, with one random word per buffer byte, so every size up to 125 has a word per character and a terminator |
| SscHeader.EntropyBufferLayout | Threegen.h:26-27 | the entropy buffer holds the 64-byte digest, then up to 120 input bytes and a terminator: 185 bytes |
| SscHeader.TableAndLimit | Threegen.h:28-33 | the set sizes sum to 94; `UPPER_LIMIT = UINT64_MAX - 94`, which is at least 94 |
| BaseHeader.BufferSizes | threegen.h:16-19 | `NUM_RAND_WORDS = (PW_BUF_SIZE * 8) / 8 = 126`, at least `MAX_PW_SIZE` |
| BaseHeader.EntropyBufferLayout | threegen.h:24-25 | `ENT_BUF_SIZE = 120 + 1 + 64 = 185` |
| BaseHeader.TableAndLimit | threegen.h:26-31 | the set sizes sum to 94 and `UPPER_LIMIT = UINT64_MAX - 94` |
| CxxHeader.BufferSizes | password_generator.hh:24-33 | 121 password bytes; the random bytes divide into exactly one u64 word per buffer byte; the entropy buffer is 64 + 120 + 1 bytes |
| CxxHeader.MaxLengthContradictsStaticAssert | password_generator.hh:27 | the header's maximum of 120 is not the 125 that the live `process_pw_size_` asserts |
| CxxHeader.TableAndLimit | password_generator.hh:35-44 | 26+26+10+32 = 94 characters (the comment says 33 symbols, the value is 32); `Upper_Limit = UINT64_MAX - 95`, one below the C limit |
| Settings.FlagBits | Threegen.h:34-39 | the six flags are distinct single bits, and the class bits are disjoint from the formatting and entropy bits |
| Settings.SetBits | args.c:78-85 | `flags \|= bits` sets the given bits, changes no other bit, and clears none |
| Settings.ClassesOf | Threegen.c:55-76 | some class is selected exactly when one of the four class bits (the bits of `-a`) is set, and all four exactly when all four bits are |
| Settings.ClassesIgnoreOptionBits | Threegen.c:55-76 | the formatting and entropy bits play no part in the class selection: clearing or setting them selects the same classes |
| Settings.SetBitsIdempotentCommutative | CommandLineArg.c:14-86 | setting bits twice is setting them once, and the order of two settings does not matter |
| Alphabet.SetsAsListed | Threegen.c:32-51 | the lowercase, uppercase, digit and symbol sets, built as runs of byte values, equal the four arrays the source spells out character by character, in the same order |
| Alphabet.AppendIf | Threegen.c:55-60 | one `if` of the builder: when its flag is set, the set is appended at the cursor, the cursor and `num_chars` grow by its size, and `one_is_valid` becomes true; the rest of the table is untouched |
| Alphabet.Build | Threegen.c:53-78 | after the four `if`s, the prefix is the enabled sets in the order lower, upper, digit, symbol; the cursor and the count grow by 26a+26b+10c+32d; the tail is untouched |
| Alphabet.SetCharacterTable | Threegen.c:53-79 | it succeeds exactly when some class is enabled (otherwise it fails with the no-sets message); `num_chars` grows by 26a+26b+10c+32d; the first `Count` bytes are the enabled sets in order; the bytes past them are unchanged |
| Generator.SetOptionsTable | password_generator.cc:248-275 | `set_character_table_` on the C++ fields: it succeeds exactly when a class option is on (otherwise `errx`); `number_characters` grows by 26, 26, 10 and 32 per enabled set; the prefix is the enabled sets in order |
| Alphabet.SetSizes | Threegen.c:36-52 | the four sets have 26, 26, 10 and 32 bytes, summing to the table length 94 |
| Alphabet.InSymbolSet | Threegen.c:46-51 | the symbol set is exactly the printable ASCII characters that are neither letters nor digits |
| Alphabet.TableMembership | Threegen.c:53-78 | a byte is in the copied prefix exactly when it belongs to an enabled class, and no such byte is NUL |
| Alphabet.CountBounds | Threegen.c:58-76 | the prefix length is the count, at most 94, and at least 1 exactly when a class is enabled |
| Alphabet.EnabledDistinct | Threegen.c:53-78 | the table prefix has no repeated byte |
| Generator.SetContextTable | threegen.c:30-79 | on the C context: classes are taken from the flag bits; only the table and `num_chars` change; success exactly when a class bit is set |
| Mapper.BuildsValid | password_generator.hh:44 | every build's limit is at least 94 squared; the C++ `Upper_Limit + Upper_Limit % n` cannot overflow |
| Mapper.LocalLimit | Threegen.c:117 | `UPPER_LIMIT - UPPER_LIMIT % n` is a multiple of n, within n of the upper limit, and at least n |
| Mapper.QuantaPerChar | Threegen.c:118 | `quanta_per_char` is positive and `n * quanta_per_char == local_limit` |
| Mapper.LocalLimitAddRemainder | password_generator.cc:286 | `Upper_Limit + Upper_Limit % n` lies in `[Upper_Limit, Upper_Limit + n)` |
| Mapper.QuantaOf | threegen.c:112-113 | in every build, the quanta are at least n and `n * q <= local_limit < n * q + n` |
| Mapper.RoundThenDivide | Threegen.c:125-126 | `(p - p % q) / q == p / q` |
| Mapper.OffsetAsWritten | Threegen.c:121-130 | the offset is `p / q` when `p <= local_limit`, and n-1 above it |
| Mapper.RoundDownOffsetCases | Threegen.c:124-130 | for the C builds the offset is below n when `p < local_limit`, exactly n at `p == local_limit`, and n-1 above; it is in range exactly when `p != local_limit` |
| Mapper.AddRemainderOffsetCases | password_generator.cc:291-299 | for the C++ build the offset is at most n, and equals n exactly for the words from `n * q` through `local_limit` |
| Mapper.AddRemainderBreaksEquation | password_generator.cc:285-287 | for n = 26 the commented equation `local_limit == n * quanta` fails by 22, and `local_limit` maps to offset 26 |
| Mapper.Offset | Threegen.c:124 | the corrected test `p < local_limit`: the offset is always below n |
| Mapper.OffsetBuckets | Threegen.c:117-130 | under the corrected test, every word below `local_limit` maps to offset k exactly when it lies in `[k*q, (k+1)*q)`, so each character gets exactly q words |
| Mapper.AsWrittenAgreesOffLimit | threegen.c:119-125 | the C mapping and the corrected one agree on every word except `local_limit` |
| Mapper.GeneratePasswordAsWritten | Threegen.c:119-132 | the buffer (in the C++ copy, `Password_Buffer_Bytes`) is `PW_BUF_SIZE` bytes; every byte from `requested_pw_size` on is NUL; the returned length is at most the requested size, and it is the index of the first NUL |
| Mapper.GeneratePassword | Threegen.c:121-131 | the corrected generator: one character per word, each from the active table |
| Mapper.AsWrittenFullLength | Threegen.c:119-132 | in every build, the C++ one included, `strlen` returns the requested size when every word maps inside the active table and no active table byte is NUL |
| Mapper.AsWrittenMatchesIntended | threegen.c:114-127 | when no word equals `local_limit`, the C buffer holds the corrected password followed by NULs, and `strlen` returns the requested size |
| Truncation.FirstLimitWordEndsPassword | Threegen.c:124-132 | when the byte past the active table is NUL, the first word equal to `local_limit` ends the password: `strlen` returns its index |
| Truncation.DigitsPasswordTruncated | Threegen.c:117-132 | with digits only, a zero context and a first word of 2^64-96, a 4-character request yields an empty password |
| Format.WriteFormatted | Threegen.c:176-199 | the output loop writes each 5-character block followed by two spaces, or a newline after every fifth block; then the leftover characters; then a newline exactly when the number of full blocks is not a multiple of five (none after 1-4 leftover characters following a multiple of 25 characters) |
| Format.Formatted | Threegen.c:176-199 | the formatted length is the password's, plus two bytes per full block, less one per completed line of five blocks, plus one newline exactly when the number of full blocks is not a multiple of five (none after 1-4 leftover characters following a multiple of 25 characters) |
| Format.Emit | Threegen.c:176-203 | either output adds only spaces and newlines: deleting them from the output and from the password gives the same bytes; the unformatted output is one byte longer and ends in a newline |
| Format.EmitRoundTrip | Threegen.c:176-203 | deleting spaces and newlines from either kind of output gives back the password in order |
| Format.BlocksLength | threegen.c:178-188 | k full blocks take 7k - k/5 bytes |
| Format.FormattedEnding | Threegen.c:195-198 | a non-empty formatted password ends in a newline exactly unless its size modulo 25 is 1 to 4 (the sizes 1-4, 26-29, … end without one) |
| BaseArgs.ShortParser | args.c:12-29 | a handler comes back exactly for length-2 strings whose second character is one of `h l u d s f a E` (the first character is not inspected); anything else is NULL, or an error in strict builds |
| BaseArgs.LongParser | args.c:34-58 | a handler comes back exactly for `--all`, `--help`, `--lower`, `--upper`, `--digit`, `--symbol`, `--format` and `--entropy` (the two leading characters are not inspected); anything else is NULL, or an error in strict builds |
| BaseArgs.Lookup | args.c:12-71 | the walker obtains the size handler exactly for strings that are neither short- nor long-type, since neither switch parser returns it; the run can stop here only for a switch-type string in a strict build, with the invalid-argument message |
| BaseArgs.Handle | args.c:77-85 | `h` exits successfully; each switch handler sets its bits and changes no other bit or field |
| BaseArgs.SwitchHandler | args.c:78-85 | `ctx->flags \|= bits` sets the bits and leaves every other bit and field alone |
| BaseArgs.PasswordSizeHandler | args.c:90-107 | it accepts exactly 1 to 3 characters, 1 to 3 digits and a value from 1 to 125; only the size field is stored; an empty string reports the minimum size and a longer one the maximum |
| BaseArgs.HandleIdempotent | args.c:77-107 | running a handler twice on the same input is running it once |
| BaseArgs.FlagHandlersCommute | args.c:78-85 | switch handlers commute, so the order of switches does not matter |
| BaseArgs.ClassSwitchesSelectClasses | args.c:78-85 | each class switch enables its own class and no other; `-a` enables all four and leaves the formatting and entropy bits alone |
| PasswordSize.CheckC | CommandLineArg.c:58-69 | accepted exactly for length 1-3, digit count 1-3 and value 1-max, storing that value; a too-short length reports the minimum size and a too-long one the maximum |
| SscArgs.Argproc | CommandLineArg.c:14-86 | `help` exits successfully; every other processor sets exactly its bits, changes nothing else, and returns what `SSC_1opt` says of the character at the offset |
| SscArgs.PasswordSizeArgproc | CommandLineArg.c:54-74 | with nothing to read: returns 0 and leaves the context unchanged; otherwise the same checks with 125, storing the size and returning the parser's count |
| SscArgs.LongsMatchBaseParser | Threegen.c:135-145 | the `longs` table names exactly the long switches args.c knows, each for the same action |
| SscArgs.ShortsMatchBaseParser | Threegen.c:147-157 | the `shorts` table lists exactly the letters args.c knows, each for the same action |
| SscArgs.ProcessorsMatchBaseHandlers | CommandLineArg.c:14-86 | each SSC processor changes the context exactly as the matching Base handler does, and both size checks accept the same strings and store the same size |
| CxxArgs.ProcessPwSize | password_generator.cc:349-370 | accepted exactly for length 1-3, digit count 1-3 and value 1-120, storing only the size; too long reports the maximum, too short the minimum, anything else the combined range message |
| CxxArgs.SizeChecksAgree | password_generator.cc:349-370 | the C++ size check accepts the same strings as the C check would with 120, and stores the same size |
| CxxArgs.ProcessFrom | password_generator.cc:145-207 | the loop stops only with a help exit or one of the three size failures |
| CxxArgs.ProcessFromRunsThrough | password_generator.cc:145-207 | the loop runs to the end exactly when no argument asks for help and every size argument is accepted |
| CxxArgs.Recognise | password_generator.cc:147-205 | an argument takes a switch branch only when it matches one of that branch's literals, and reaches `process_pw_size_` exactly when it matches none of the fifteen |
| CxxArgs.RecogniseExact | password_generator.cc:147-205 | with exact comparison an argument takes a branch exactly when it is one of that branch's literals; only `-E` selects entropy |
| CxxArgs.Apply | password_generator.cc:147-205 | help exits successfully; a size argument goes on exactly when `process_pw_size_` accepts it and then stores its value; every other branch goes on, turns on exactly its options, never turns one off and leaves the size alone |
| CxxArgs.ApplyOption | password_generator.cc:154-195 | one branch turns an option on exactly when it belongs to that option (`-a` to the four classes), and never turns one off |
| CxxArgs.ProcessFromOption | password_generator.cc:145-207 | after the loop an option is on exactly when it was on before or some non-null argument turns it on |
| CxxArgs.ProcessFromOptions | password_generator.cc:145-207 | the same for all six options at once |
| CxxArgs.ProcessFromSize | password_generator.cc:196-205 | after the loop the size is the one the last size argument asks for, or unchanged if there is none |
| CxxArgs.ProcessArguments | password_generator.cc:142-144 | zero arguments is an error; otherwise the loop runs from the defaults |
| CxxArgs.EntropyLongFormRejected | password_generator.cc:193 | `--entropy` is not a switch in the C++ version; it reaches the size check, which rejects it as too long |
| CxxArgs.ShortFormsMatchBase | password_generator.cc:147-195 | every short switch of the C versions selects the same action here |
| CxxArgs.LongFormsMatchBase | password_generator.cc:147-192 | every long switch of the C versions except `--entropy` selects the same action here |
| Generator.OutputAsWritten | Threegen.c:170-203 | a run succeeds exactly when some class is enabled, and otherwise fails with the no-sets message |
| Generator.Output | Threegen.c:170-203 | the same for a run with the corrected mapping |
| Generator.AlphabetHasNoSeparators | Threegen.c:46-51 | no table character is a space or a newline, so the separators can be told apart |
| Generator.OutputContents | Threegen.c:170-203 | with the corrected mapping, deleting separators leaves exactly the requested number of characters, each from an enabled class; the unformatted text is those characters and a newline; the formatted text is their block layout |
| Generator.OutputAsWrittenMatchesIntended | threegen.c:164-196 | a C run prints what the corrected run prints whenever no word equals `local_limit` |
| Generator.RunC | threegen.c:164-196 | a C run after argument processing succeeds exactly when the table builder does, that is, when a class bit is set |
| Generator.RunCxx | password_generator.cc:52-92 | a C++ run after argument processing succeeds exactly when a class option is on |

## Left out

- The CSPRNG (`PPQ_CSPRNG_*`, `Skc_CSPRNG_*`, `CSPRNG_f`) and Skein hashing are cryptographic primitives outside the program. The random words are an input `seq<u64>`.
- `supplement_entropy_` (terminal input and reseeding) is I/O. Only its buffer layout is stated, as a header lemma.
- Allocation, memory locking, `secure_zero`/`zero_sensitive` and OpenBSD pledge/unveil are operating-system calls. `LOCK_M_` and `ULOCK_M_` are passed `sizeof(crypto)`, the size of a pointer, at Threegen.c:166,205 and threegen.c:160,198. The failure paths (`SSC_assertMsg`, `Base_assert_msg`, `errx`) exit without zeroing the buffers. The model does not represent memory, so neither is modelled.
- The argument walkers (`SSC_processCommandLineArgs`, `Base_process_args`), `Base_argtype`, `C_Argument_Map::argument_cmp`, `SSC_1opt`, `SSC_ArgParser_init`, `shift_left_digits`/`SSC_Cstr_shiftDigitsToFront` and `atoi` are library code that is not part of this model. They appear as parameters: `ArgType`, `matches`, `oneOpt`, `ArgParser` and `NumberLib`.
- Arguments are `string`s, so one Dafny character stands for one byte. C strings are modelled by their characters up to the terminator. An argument with a multi-byte character (such as `12é`, four bytes) is measured in characters, not in bytes.
- PasswordSize.CheckC: `strlen(str)` is taken as `|str|`, counting characters and not bytes.
- BaseArgs.PasswordSizeHandler: `strlen(str)` is taken as `|str|`, counting characters and not bytes.
- SscArgs.PasswordSizeArgproc: `ap.size`, the argument size the library parser reports, is taken as `|toRead|`, counting characters and not bytes.
- CxxArgs.ProcessPwSize: `sizes[i]` is taken as the argument's length `|number|`, counting characters and not bytes.
- BaseArgs.LongParser: the `X_handler` names that `long_parser` returns (`all_handler` through `entropy_handler`) are not defined in args.c, which defines only the one-letter handlers `h_` to `E_` and `password_size_handler` (args.c:77-107). Each `X_handler` is assumed to act like the one-letter handler for the same switch.
- BaseArgs: the model follows the parsers and handlers of args.c. The Base run (threegen.c:163) registers the `*_argproc` functions declared in args.h:8-16 instead, and their definitions are not part of this model.
- `fwrite`, `putchar` and `fputs`: the formatter returns the bytes it would write.
- `print_help`, `main` and the declaration headers are entry points and declarations only.
- The `#if 0` blocks of password_generator.cc are dead code, and one of them does not parse. The constructor taking `argc, argv` that the header declares does not match the `C_Argument_Map` constructor the .cc defines. The live `process_pw_size_` uses an undeclared `temp_cstr`; its check that `temp_cstr` is null, and its allocation failure, are left out.
- The C++ `process_arguments_` clears each recognised entry of the argument map (`c_strings[i] = nullptr`). Nothing in the loop reads that entry again, so the model does not represent it.
- The byte read at offset 94, past `character_table`, is whatever the record holds next. It is the parameter `beyond`.
- threegen.h declares six bools, while threegen.c and args.c use `ctx->flags` and the `THREEGEN_USE_*` bits. The Base version is modelled on the flag-bit context its .c files use. The bool record is the C++ `Options`.
- `Generator.RunC`: its contract states only when the run succeeds. What it prints is stated by `Generator.OutputAsWrittenMatchesIntended` and `Generator.OutputContents`.
- `Generator.OutputAsWritten`: the same; its contents are related to the corrected run by `Generator.OutputAsWrittenMatchesIntended`, and its truncation by `Truncation.FirstLimitWordEndsPassword`.
- `Generator.RunCxx`: its contract states only when the run succeeds; `Mapper.AddRemainderOffsetCases` states which words leave the active table.
- `CxxArgs.ProcessFrom`: its contract gives only the ways the loop stops. Its results are stated by `CxxArgs.ProcessFromRunsThrough`, `CxxArgs.ProcessFromOptions` and `CxxArgs.ProcessFromSize`.

## Findings

| source | as written | input that shows it | evidently intended | confidence | as-written member | corrected member |
|---|---|---|---|---|---|---|
| Threegen.c:124 | `if (p <= local_limit)` maps the word `p == local_limit` to offset `n`, one past the active table | `3gen -d 4`: n = 10 and a first random word of 2^64-96. `character_table[10]` is 0 in the zeroed context, so `strlen` returns 0 and an empty line is printed | `p < local_limit`, so every word maps into `[0, n)` | high (proved; not executed) | Truncation.DigitsPasswordTruncated | Mapper.OffsetBuckets |
| threegen.c:119 | the same `<=` test in the Base version | the same input | `p < local_limit` | high (proved; not executed) | Mapper.RoundDownOffsetCases | Mapper.Offset |
| password_generator.cc:286 | `Upper_Limit + (Upper_Limit % n)` adds the remainder, so `local_limit` is no multiple of n, contrary to the comment on line 285 | n = 26 (`-l`): 23 words from `26 * q` through `local_limit` map to offset 26, past the lowercase letters | `Upper_Limit - (Upper_Limit % n)` with the `<` test | high (proved; not executed) | Mapper.AddRemainderBreaksEquation | Mapper.OffsetBuckets |
