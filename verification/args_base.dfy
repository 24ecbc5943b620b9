/** Argument dispatch of the Base/Skc version (args.c). The argument walker
    `Base_process_args` and the classifier `Base_argtype` are not part of
    this model: the walker asks `arg_processor` for a parser for each
    argument, the parser for a handler, and calls the handler on the
    context. Without `THREEGEN_EXTERN_STRICT_ARG_PROCESSING` a parser that
    does not recognise a switch returns NULL silently; with it the program
    stops with "Invalid argument". A C string is modelled by its characters
    up to the terminator, so `strlen(s)` is `|s|`. */
module BaseArgs {
  import opened Words
  import opened Outcomes
  import opened Settings
  import PasswordSize
  import BaseHeader

  /** The handlers a parser can return. `Size` is `password_size_handler`. */
  datatype Handler = Help | Lower | Upper | Digit | Symbol | Format | All | Entropy | Size

  /** The switch letters `short_parser` knows (the letter after the dash). */
  const SHORT_OPTIONS: map<char, Handler> := map[
    'h' := Help, 'l' := Lower, 'u' := Upper, 'd' := Digit,
    's' := Symbol, 'f' := Format, 'a' := All, 'E' := Entropy]

  /** The names `long_parser` knows (the text after the two dashes). */
  const LONG_OPTIONS: map<string, Handler> := map[
    "all" := All, "help" := Help, "lower" := Lower, "upper" := Upper,
    "digit" := Digit, "symbol" := Symbol, "format" := Format, "entropy" := Entropy]

  /** A parser's NULL, or the strict build's error. */
  function Unknown(s: string, strict: bool): Status<Option<Handler>> {
    if strict then ExitFailure(InvalidArgument(s)) else Continue(None)
  }

  /** `short_parser`: a handler exactly for two-character strings whose
      second character is a known switch letter; the first character is
      never inspected. */
  function ShortParser(s: string, strict: bool): (r: Status<Option<Handler>>)
    ensures (|s| == 2 && s[1] in SHORT_OPTIONS) ==> r == Continue(Some(SHORT_OPTIONS[s[1]]))
    ensures !(|s| == 2 && s[1] in SHORT_OPTIONS) ==> r == Unknown(s, strict)
  {
    if |s| == 2 then
      match s[1]
      case 'h' => Continue(Some(Help))
      case 'l' => Continue(Some(Lower))
      case 'u' => Continue(Some(Upper))
      case 'd' => Continue(Some(Digit))
      case 's' => Continue(Some(Symbol))
      case 'f' => Continue(Some(Format))
      case 'a' => Continue(Some(All))
      case 'E' => Continue(Some(Entropy))
      case _ => Unknown(s, strict)
    else Unknown(s, strict)
  }

  /** `long_parser`: switches on `strlen(str) - 2` (a `size_t`, so strings
      shorter than 2 wrap to a size no case matches) and compares the text
      after the first two characters with the names of that length. A
      handler comes back exactly for the known names; the two leading
      characters are never inspected. */
  function LongParser(s: string, strict: bool): (r: Status<Option<Handler>>)
    requires |s| < U64_MODULUS
    ensures (|s| >= 2 && s[2..] in LONG_OPTIONS) ==> r == Continue(Some(LONG_OPTIONS[s[2..]]))
    ensures !(|s| >= 2 && s[2..] in LONG_OPTIONS) ==> r == Unknown(s, strict)
  {
    var size := SizeMinusTwo(|s|);
    if size == 3 && s[2..] == "all" then Continue(Some(All))
    else if size == 4 && s[2..] == "help" then Continue(Some(Help))
    else if size == 5 && s[2..] == "lower" then Continue(Some(Lower))
    else if size == 5 && s[2..] == "upper" then Continue(Some(Upper))
    else if size == 5 && s[2..] == "digit" then Continue(Some(Digit))
    else if size == 6 && s[2..] == "symbol" then Continue(Some(Symbol))
    else if size == 6 && s[2..] == "format" then Continue(Some(Format))
    else if size == 7 && s[2..] == "entropy" then Continue(Some(Entropy))
    else Unknown(s, strict)
  }

  /** Neither switch table names the size handler. */
  lemma SwitchTablesOmitSize()
    ensures forall c :: c in SHORT_OPTIONS ==> SHORT_OPTIONS[c] != Size
    ensures forall n :: n in LONG_OPTIONS ==> LONG_OPTIONS[n] != Size
  {
  }

  /** `floating_parser`: every argument that is not a switch is a size. */
  function FloatingParser(s: string): (r: Status<Option<Handler>>)
    ensures r == Continue(Some(Size))
  {
    Continue(Some(Size))
  }

  /** What `Base_argtype` reports for a string. */
  datatype ArgType = ShortType | LongType | OtherType

  datatype Parser = ShortP | LongP | FloatingP

  /** `arg_processor`. */
  function ArgProcessor(t: ArgType): (p: Parser)
    ensures t == ShortType <==> p == ShortP
    ensures t == LongType <==> p == LongP
  {
    match t
    case ShortType => ShortP
    case LongType => LongP
    case OtherType => FloatingP
  }

  /** The handler the walker obtains for one argument. Only the floating
      parser hands out the size handler, so a string gets it exactly when
      it is neither short- nor long-type; and only a switch-type string in
      a strict build can stop the run. */
  function Lookup(t: ArgType, s: string, strict: bool): (r: Status<Option<Handler>>)
    requires |s| < U64_MODULUS
    ensures t == OtherType ==> r == Continue(Some(Size))
    ensures t == ShortType ==> r == ShortParser(s, strict)
    ensures t == LongType ==> r == LongParser(s, strict)
    ensures r == Continue(Some(Size)) <==> t == OtherType
    ensures !r.Continue? ==> strict && t != OtherType && r == ExitFailure(InvalidArgument(s))
  {
    SwitchTablesOmitSize();
    match ArgProcessor(t)
    case ShortP => ShortParser(s, strict)
    case LongP => LongParser(s, strict)
    case FloatingP => FloatingParser(s)
  }

  /** The flag bits a handler ORs in. */
  function HandlerBits(h: Handler): bv8 {
    match h
    case Lower => USE_LCASE
    case Upper => USE_UCASE
    case Digit => USE_DIGITS
    case Symbol => USE_SYMBOLS
    case All => USE_ALL_CHARS
    case Format => USE_FORMATTING
    case Entropy => GET_ENTROPY
    case Help => 0
    case Size => 0
  }

  predicate IsFlagHandler(h: Handler) { h != Help && h != Size }

  /** The handlers. `h` prints the help and exits successfully; the switch
      handlers OR their bits into the flags, setting them and changing no
      other bit or field; the size handler reads the first string handed
      to it and stores the size if the checks pass. */
  function Handle(h: Handler, strArr: seq<string>, ctx: Context, lib: PasswordSize.NumberLib): (r: Status<Context>)
    requires h == Size ==> |strArr| >= 1
    ensures h == Help ==> r == ExitSuccess
    ensures IsFlagHandler(h) ==>
      && r.Continue?
      && r.value == ctx.(flags := r.value.flags)
      && r.value.flags & HandlerBits(h) == HandlerBits(h)
      && r.value.flags & !HandlerBits(h) == ctx.flags & !HandlerBits(h)
    ensures h == Size ==>
      && (r.Continue? <==> PasswordSize.CheckC(strArr[0], lib, BaseHeader.MAX_PW_SIZE).Continue?)
      && (r.Continue? ==> r.value == ctx.(requestedPwSize := r.value.requestedPwSize)
                          && 1 <= r.value.requestedPwSize <= BaseHeader.MAX_PW_SIZE)
  {
    match h
    case Help => ExitSuccess
    case Size => PasswordSizeHandler(strArr[0], ctx, lib)
    case _ => Continue(SwitchHandler(ctx, HandlerBits(h)))
  }

  /** The switch handlers: `ctx->flags |= bits`. */
  function SwitchHandler(ctx: Context, bits: bv8): (r: Context)
    ensures r == ctx.(flags := r.flags)
    ensures r.flags & bits == bits
    ensures r.flags & !bits == ctx.flags & !bits
  {
    var flags := SetBits(ctx.flags, bits);
    assert flags & bits == bits && flags & !bits == ctx.flags & !bits;
    ctx.(flags := flags)
  }

  /** `password_size_handler`: the checks of `PasswordSize.CheckC` with
      `THREEGEN_MAX_PW_SIZE`; only `requested_pw_size` is written. */
  function PasswordSizeHandler(text: string, ctx: Context, lib: PasswordSize.NumberLib): (r: Status<Context>)
    ensures r.Continue? <==> PasswordSize.CheckC(text, lib, BaseHeader.MAX_PW_SIZE).Continue?
    ensures r.Continue? ==>
      r.value == ctx.(requestedPwSize := PasswordSize.Value(text, lib))
      && 1 <= r.value.requestedPwSize <= BaseHeader.MAX_PW_SIZE
    ensures |text| == 0 ==> r == ExitFailure(MinPwSize)
    ensures |text| > 3 ==> r == ExitFailure(MaxPwSize)
  {
    var size :- PasswordSize.CheckC(text, lib, BaseHeader.MAX_PW_SIZE);
    Continue(ctx.(requestedPwSize := size))
  }

  /** Calling a handler a second time with the same strings changes
      nothing more. */
  lemma HandleIdempotent(h: Handler, strArr: seq<string>, ctx: Context, lib: PasswordSize.NumberLib)
    requires h == Size ==> |strArr| >= 1
    requires Handle(h, strArr, ctx, lib).Continue?
    ensures Handle(h, strArr, Handle(h, strArr, ctx, lib).value, lib) == Handle(h, strArr, ctx, lib)
  {
    if IsFlagHandler(h) {
      SetBitsIdempotentCommutative(ctx.flags, HandlerBits(h), HandlerBits(h));
    }
  }

  /** Switch handlers commute: the final flags do not depend on the order
      of the switches on the command line. */
  lemma FlagHandlersCommute(h1: Handler, h2: Handler, ctx: Context, lib: PasswordSize.NumberLib)
    requires IsFlagHandler(h1) && IsFlagHandler(h2)
    ensures Handle(h2, [], Handle(h1, [], ctx, lib).value, lib)
         == Handle(h1, [], Handle(h2, [], ctx, lib).value, lib)
  {
    var b1, b2 := HandlerBits(h1), HandlerBits(h2);
    HandleSwitch(h1, ctx, lib);
    HandleSwitch(h2, ctx, lib);
    HandleSwitch(h2, SwitchHandler(ctx, b1), lib);
    HandleSwitch(h1, SwitchHandler(ctx, b2), lib);
    SwitchHandlersCommute(ctx, b1, b2);
  }

  /** A switch handler is `SwitchHandler` with its bits. */
  lemma HandleSwitch(h: Handler, ctx: Context, lib: PasswordSize.NumberLib)
    requires IsFlagHandler(h)
    ensures Handle(h, [], ctx, lib) == Continue(SwitchHandler(ctx, HandlerBits(h)))
  {
  }

  lemma SwitchHandlersCommute(ctx: Context, b1: bv8, b2: bv8)
    ensures SwitchHandler(SwitchHandler(ctx, b1), b2) == SwitchHandler(SwitchHandler(ctx, b2), b1)
  {
    SetBitsIdempotentCommutative(ctx.flags, b1, b2);
  }

  /** Each class switch enables its own class and no other; `-a` enables
      all four and leaves the formatting and entropy bits as they were. */
  lemma ClassSwitchesSelectClasses(ctx: Context, lib: PasswordSize.NumberLib)
    ensures var c := ClassesOf(ctx.flags);
      && ClassesOf(Handle(Lower, [], ctx, lib).value.flags) == c.(lower := true)
      && ClassesOf(Handle(Upper, [], ctx, lib).value.flags) == c.(upper := true)
      && ClassesOf(Handle(Digit, [], ctx, lib).value.flags) == c.(digits := true)
      && ClassesOf(Handle(Symbol, [], ctx, lib).value.flags) == c.(symbols := true)
      && ClassesOf(Handle(Format, [], ctx, lib).value.flags) == c
      && ClassesOf(Handle(Entropy, [], ctx, lib).value.flags) == c
    ensures var a := Handle(All, [], ctx, lib).value.flags;
      && ClassesOf(a) == ClassesOf(USE_ALL_CHARS)
      && a & (USE_FORMATTING | GET_ENTROPY) == ctx.flags & (USE_FORMATTING | GET_ENTROPY)
  {
  }
}
