/** The SSC version's argument processors (CommandLineArg.c) and the switch
    tables Threegen.c hands to the SSC library's walker. The walker
    (`SSC_processCommandLineArgs`), `SSC_ArgParser_init` and `SSC_1opt` are
    not part of this model: the walker calls a processor with the current
    argument and an offset into it, and a processor answers with how many
    arguments or characters it consumed, which `SSC_1opt` decides from the
    character after the switch letter; it is a parameter here. */
module SscArgs {
  import opened Words
  import opened Outcomes
  import opened Settings
  import PasswordSize
  import SscHeader
  import BaseArgs

  /** The switch processors other than `password_size_argproc`. */
  datatype Proc = AllProc | DigitProc | EntropyProc | FormatProc | HelpProc | LowerProc | SymbolProc | UpperProc

  /** The `longs` table, in its order. */
  const LONGS: seq<(string, Proc)> := [
    ("all", AllProc), ("digit", DigitProc), ("entropy", EntropyProc), ("format", FormatProc),
    ("help", HelpProc), ("lower", LowerProc), ("symbol", SymbolProc), ("upper", UpperProc)]

  /** The `shorts` table, in its order. */
  const SHORTS: seq<(char, Proc)> := [
    ('E', EntropyProc), ('a', AllProc), ('d', DigitProc), ('f', FormatProc),
    ('h', HelpProc), ('l', LowerProc), ('s', SymbolProc), ('u', UpperProc)]

  /** `argv[0][off]`, where the offset may point at the terminator. */
  function CharAt(s: string, off: nat): (c: char)
    requires off <= |s|
    ensures off < |s| ==> c == s[off]
    ensures off == |s| ==> c == '\0'
  {
    if off < |s| then s[off] else '\0'
  }

  /** The bits each switch processor ORs into `ctx->flags`. */
  function ProcBits(p: Proc): bv8 {
    match p
    case AllProc => USE_ALL_CHARS
    case DigitProc => USE_DIGITS
    case EntropyProc => GET_ENTROPY
    case FormatProc => USE_FORMATTING
    case HelpProc => 0
    case LowerProc => USE_LCASE
    case SymbolProc => USE_SYMBOLS
    case UpperProc => USE_UCASE
  }

  /** A switch processor: `help` exits successfully; every other one sets
      its bits, changes nothing else in the context, and reports what
      `SSC_1opt` says of the character at the offset. */
  function Argproc(p: Proc, argv0: string, off: nat, ctx: Context, oneOpt: char -> int): (r: Status<(int, Context)>)
    requires off <= |argv0|
    ensures p == HelpProc <==> r == ExitSuccess
    ensures p != HelpProc ==>
      && r.Continue?
      && r.value.0 == oneOpt(CharAt(argv0, off))
      && r.value.1 == ctx.(flags := r.value.1.flags)
      && r.value.1.flags & ProcBits(p) == ProcBits(p)
      && r.value.1.flags & !ProcBits(p) == ctx.flags & !ProcBits(p)
  {
    if p == HelpProc then ExitSuccess
    else Continue((oneOpt(CharAt(argv0, off)), BaseArgs.SwitchHandler(ctx, ProcBits(p))))
  }

  /** What `SSC_ArgParser_init` yields: the string to read, if any, and how
      many arguments reading it consumes. */
  datatype ArgParser = ArgParser(toRead: Option<string>, consumed: int)

  /** `password_size_argproc`: with nothing to read it consumes nothing and
      leaves the context alone; otherwise it applies the size checks with
      `THREEGEN_MAX_PW_SIZE` to the string, stores the size and reports
      the parser's count. */
  function PasswordSizeArgproc(ap: ArgParser, ctx: Context, lib: PasswordSize.NumberLib): (r: Status<(int, Context)>)
    ensures ap.toRead.None? ==> r == Continue((0, ctx))
    ensures ap.toRead.Some? ==>
      (r.Continue? <==> PasswordSize.CheckC(ap.toRead.value, lib, SscHeader.MAX_PW_SIZE).Continue?)
    ensures ap.toRead.Some? && r.Continue? ==>
      && r.value.0 == ap.consumed
      && r.value.1 == ctx.(requestedPwSize := PasswordSize.Value(ap.toRead.value, lib))
      && 1 <= r.value.1.requestedPwSize <= SscHeader.MAX_PW_SIZE
    ensures !r.Continue? ==> r == ExitFailure(MinPwSize) || r == ExitFailure(MaxPwSize)
  {
    match ap.toRead
    case None => Continue((0, ctx))
    case Some(text) =>
      var size :- PasswordSize.CheckC(text, lib, SscHeader.MAX_PW_SIZE);
      Continue((ap.consumed, ctx.(requestedPwSize := size)))
  }

  /** The Base handler that does what a processor does. */
  function BaseHandlerOf(p: Proc): BaseArgs.Handler {
    match p
    case AllProc => BaseArgs.All
    case DigitProc => BaseArgs.Digit
    case EntropyProc => BaseArgs.Entropy
    case FormatProc => BaseArgs.Format
    case HelpProc => BaseArgs.Help
    case LowerProc => BaseArgs.Lower
    case SymbolProc => BaseArgs.Symbol
    case UpperProc => BaseArgs.Upper
  }

  /** The SSC `longs` table recognises exactly the names the Base long
      parser recognises, each for the processor matching the Base handler. */
  lemma LongsMatchBaseParser()
    ensures (set e | e in LONGS :: e.0) == BaseArgs.LONG_OPTIONS.Keys
    ensures forall e | e in LONGS :: BaseArgs.LONG_OPTIONS[e.0] == BaseHandlerOf(e.1)
  {
    LongNames();
    LongHandlers();
  }

  lemma LongHandlers()
    ensures forall e | e in LONGS :: BaseArgs.LONG_OPTIONS[e.0] == BaseHandlerOf(e.1)
  {
  }

  lemma LongNames()
    ensures (set e | e in LONGS :: e.0) == BaseArgs.LONG_OPTIONS.Keys
  {
  }

  /** The same for the `shorts` table and the Base short parser. */
  lemma ShortsMatchBaseParser()
    ensures (set e | e in SHORTS :: e.0) == BaseArgs.SHORT_OPTIONS.Keys
    ensures forall e | e in SHORTS :: BaseArgs.SHORT_OPTIONS[e.0] == BaseHandlerOf(e.1)
  {
    ShortNames();
    ShortHandlers();
  }

  lemma ShortHandlers()
    ensures forall e | e in SHORTS :: BaseArgs.SHORT_OPTIONS[e.0] == BaseHandlerOf(e.1)
  {
  }

  lemma ShortNames()
    ensures (set e | e in SHORTS :: e.0) == BaseArgs.SHORT_OPTIONS.Keys
  {
  }

  /** Each SSC processor leaves the context exactly as the matching Base
      handler does, and the two size checks accept the same strings and
      store the same size. */
  lemma ProcessorsMatchBaseHandlers(p: Proc, argv0: string, off: nat, ctx: Context,
                                    oneOpt: char -> int, text: string, consumed: int,
                                    lib: PasswordSize.NumberLib)
    requires off <= |argv0|
    ensures p == HelpProc ==> Argproc(p, argv0, off, ctx, oneOpt).ExitSuccess? && BaseArgs.Handle(BaseHandlerOf(p), [], ctx, lib).ExitSuccess?
    ensures p != HelpProc ==>
      Argproc(p, argv0, off, ctx, oneOpt).value.1 == BaseArgs.Handle(BaseHandlerOf(p), [], ctx, lib).value
    ensures var s := PasswordSizeArgproc(ArgParser(Some(text), consumed), ctx, lib);
            var b := BaseArgs.Handle(BaseArgs.Size, [text], ctx, lib);
      && (s.Continue? <==> b.Continue?)
      && (s.Continue? ==> s.value.1 == b.value)
  {
    if p != HelpProc {
      assert BaseArgs.HandlerBits(BaseHandlerOf(p)) == ProcBits(p);
    }
  }
}
