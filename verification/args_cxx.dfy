/** The C++ version's argument processing (the live `#else` branches of
    `process_arguments_` and `process_pw_size_` in password_generator.cc).
    `C_Argument_Map` and its `argument_cmp` are not part of this model: the
    map holds one string per argument, or a null entry, and the comparison
    is a parameter `matches(argument, literal)`. The size of an argument is
    taken to be its length. */
module CxxArgs {
  import opened Outcomes
  import PasswordSize
  import CxxHeader
  import BaseArgs

  /** The option fields of `Password_Generator`. */
  datatype Options = Options(lower: bool, upper: bool, digits: bool, symbols: bool,
                             formatting: bool, entropy: bool, requestedPasswordSize: int)

  /** The in-class initialisers: everything off, size 0. */
  const DEFAULT_OPTIONS: Options := Options(false, false, false, false, false, false, 0)

  /** The branch of the if-chain an argument takes. */
  datatype Switch = HelpSw | LowerSw | UpperSw | DigitSw | SymbolSw | FormatSw | AllSw | EntropySw | SizeArg

  /** The literals that select each branch; none selects the size check. */
  function Literals(s: Switch): set<string> {
    match s
    case HelpSw => {"-h", "--help"}
    case LowerSw => {"-l", "--lower"}
    case UpperSw => {"-u", "--upper"}
    case DigitSw => {"-d", "--digit"}
    case SymbolSw => {"-s", "--symbol"}
    case FormatSw => {"-f", "--format"}
    case AllSw => {"-a", "--all"}
    case EntropySw => {"-E"}
    case SizeArg => {}
  }

  /** Every literal of the if-chain. */
  const SWITCH_LITERALS: set<string> :=
    {"-h", "--help", "-l", "--lower", "-u", "--upper", "-d", "--digit",
     "-s", "--symbol", "-f", "--format", "-a", "--all", "-E"}

  /** The if-chain, in source order: an argument takes a branch only when it
      matches one of that branch's literals, and it reaches the size check
      exactly when it matches none of them. Only `-E` selects entropy; the
      long form `--entropy` is not among the literals. */
  function Recognise(arg: string, matches: (string, string) -> bool): (r: Switch)
    ensures r != SizeArg ==> exists lit :: lit in Literals(r) && matches(arg, lit)
    ensures r == SizeArg <==> forall lit :: lit in SWITCH_LITERALS ==> !matches(arg, lit)
  {
    if matches(arg, "-h") || matches(arg, "--help") then HelpSw
    else if matches(arg, "-l") || matches(arg, "--lower") then LowerSw
    else if matches(arg, "-u") || matches(arg, "--upper") then UpperSw
    else if matches(arg, "-d") || matches(arg, "--digit") then DigitSw
    else if matches(arg, "-s") || matches(arg, "--symbol") then SymbolSw
    else if matches(arg, "-f") || matches(arg, "--format") then FormatSw
    else if matches(arg, "-a") || matches(arg, "--all") then AllSw
    else if matches(arg, "-E") then EntropySw
    else SizeArg
  }

  /** Exact string comparison. */
  function Exact(arg: string, literal: string): bool { arg == literal }

  /** With exact comparison an argument takes a branch exactly when it is
      one of that branch's literals (so only `-E` selects entropy), and the
      size check exactly when it is none of them. */
  lemma RecogniseExact(arg: string, s: Switch)
    ensures Recognise(arg, Exact) == s <==>
      if s == SizeArg then arg !in SWITCH_LITERALS else arg in Literals(s)
  {
  }

  /** The strings `process_pw_size_` accepts: 1 to 3 characters, 1 to 3
      digits and a value from 1 to `Max_Password_Length`. */
  predicate SizeAccepted(text: string, lib: PasswordSize.NumberLib) {
    && 1 <= |text| <= 3
    && 1 <= PasswordSize.DigitCount(text, lib) <= 3
    && 1 <= PasswordSize.Value(text, lib) <= CxxHeader.MAX_PASSWORD_LENGTH
  }

  /** `process_pw_size_`: the length checks report the maximum and the
      minimum size; a digit count or value out of range reports the
      combined range message. Only the size field is written. */
  function ProcessPwSize(number: string, opts: Options, lib: PasswordSize.NumberLib): (r: Status<Options>)
    ensures r.Continue? <==> SizeAccepted(number, lib)
    ensures r.Continue? ==> r.value == opts.(requestedPasswordSize := PasswordSize.Value(number, lib))
    ensures |number| > 3 ==> r == ExitFailure(MaxPwSize)
    ensures |number| < 1 ==> r == ExitFailure(MinPwSize)
    ensures 1 <= |number| <= 3 && !r.Continue? ==> r == ExitFailure(PwSizeRange)
  {
    if |number| > 3 then ExitFailure(MaxPwSize)
    else if |number| < 1 then ExitFailure(MinPwSize)
    else
      var (digits, shifted) := lib.shiftDigits(number);
      if digits < 1 || digits > 3 then ExitFailure(PwSizeRange)
      else
        var size := lib.atoi(shifted);
        if size >= 1 && size <= CxxHeader.MAX_PASSWORD_LENGTH then
          Continue(opts.(requestedPasswordSize := size))
        else ExitFailure(PwSizeRange)
  }

  /** The C++ size check accepts exactly the strings the C check accepts
      with the C++ maximum, and stores the same size; only the failure
      messages differ. */
  lemma SizeChecksAgree(number: string, opts: Options, lib: PasswordSize.NumberLib)
    ensures ProcessPwSize(number, opts, lib).Continue?
        <==> PasswordSize.CheckC(number, lib, CxxHeader.MAX_PASSWORD_LENGTH).Continue?
    ensures ProcessPwSize(number, opts, lib).Continue? ==>
      ProcessPwSize(number, opts, lib).value.requestedPasswordSize
        == PasswordSize.CheckC(number, lib, CxxHeader.MAX_PASSWORD_LENGTH).value
  {
  }

  /** One branch of the if-chain: help stops the run successfully, a size
      argument goes on exactly when the size check accepts it, and every
      other branch goes on. A branch turns an option on exactly when it is
      one of that option's branches, never turns one off, and only the size
      branch writes the size. */
  function Apply(s: Switch, arg: string, opts: Options, lib: PasswordSize.NumberLib): (r: Status<Options>)
    ensures r.Continue? <==> s != HelpSw && (s == SizeArg ==> SizeAccepted(arg, lib))
    ensures s == HelpSw ==> r == ExitSuccess
    ensures r.Continue? ==> forall f :: Get(r.value, f) <==> Get(opts, f) || s in TurnsOn(f)
    ensures r.Continue? && s != SizeArg ==> r.value.requestedPasswordSize == opts.requestedPasswordSize
    ensures r.Continue? && s == SizeArg ==> r.value.requestedPasswordSize == PasswordSize.Value(arg, lib)
  {
    match s
    case HelpSw => ExitSuccess
    case LowerSw => Continue(opts.(lower := true))
    case UpperSw => Continue(opts.(upper := true))
    case DigitSw => Continue(opts.(digits := true))
    case SymbolSw => Continue(opts.(symbols := true))
    case FormatSw => Continue(opts.(formatting := true))
    case AllSw => Continue(opts.(lower := true, upper := true, digits := true, symbols := true))
    case EntropySw => Continue(opts.(entropy := true))
    case SizeArg => ProcessPwSize(arg, opts, lib)
  }

  /** Some non-null argument from index `i` on takes one of the branches `sws`. */
  predicate Mentions(args: seq<Option<string>>, i: nat, sws: set<Switch>, matches: (string, string) -> bool) {
    exists j :: i <= j < |args| && args[j].Some? && Recognise(args[j].value, matches) in sws
  }

  /** Every size argument from index `i` on is accepted. */
  predicate SizesAccepted(args: seq<Option<string>>, i: nat, matches: (string, string) -> bool, lib: PasswordSize.NumberLib) {
    forall j :: i <= j < |args| && args[j].Some? && Recognise(args[j].value, matches) == SizeArg ==>
      SizeAccepted(args[j].value, lib)
  }

  /** The size the last size argument from index `i` on asks for, if any. */
  predicate LastSizeIs(args: seq<Option<string>>, i: nat, size: int, matches: (string, string) -> bool, lib: PasswordSize.NumberLib) {
    exists j :: i <= j < |args| && args[j].Some? && Recognise(args[j].value, matches) == SizeArg
      && size == PasswordSize.Value(args[j].value, lib) && !Mentions(args, j + 1, {SizeArg}, matches)
  }

  /** The loop of `process_arguments_` from index `i`, skipping null
      entries; it stops at the first argument that asks for help or fails
      the size check. */
  function ProcessFrom(args: seq<Option<string>>, i: nat, opts: Options,
                       matches: (string, string) -> bool, lib: PasswordSize.NumberLib): (r: Status<Options>)
    requires i <= |args|
    decreases |args| - i
    ensures !r.Continue? ==>
      (r == ExitSuccess || r == ExitFailure(MaxPwSize) || r == ExitFailure(MinPwSize) || r == ExitFailure(PwSizeRange))
  {
    if i == |args| then Continue(opts)
    else match args[i]
      case None => ProcessFrom(args, i + 1, opts, matches, lib)
      case Some(arg) =>
        var next :- Apply(Recognise(arg, matches), arg, opts, lib);
        ProcessFrom(args, i + 1, next, matches, lib)
  }

  /** Unfolding `Mentions`, `SizesAccepted` and `LastSizeIs` by one index. */
  lemma MentionsStep(args: seq<Option<string>>, i: nat, sws: set<Switch>, matches: (string, string) -> bool)
    requires i < |args|
    ensures Mentions(args, i, sws, matches) <==>
      (args[i].Some? && Recognise(args[i].value, matches) in sws) || Mentions(args, i + 1, sws, matches)
  {
    if Mentions(args, i, sws, matches) && !(args[i].Some? && Recognise(args[i].value, matches) in sws) {
      var j :| i <= j < |args| && args[j].Some? && Recognise(args[j].value, matches) in sws;
      assert j != i;
    }
  }

  lemma SizesAcceptedStep(args: seq<Option<string>>, i: nat, matches: (string, string) -> bool, lib: PasswordSize.NumberLib)
    requires i < |args|
    ensures SizesAccepted(args, i, matches, lib) <==>
      (args[i].Some? && Recognise(args[i].value, matches) == SizeArg ==> SizeAccepted(args[i].value, lib))
      && SizesAccepted(args, i + 1, matches, lib)
  {
  }

  lemma LastSizeStep(args: seq<Option<string>>, i: nat, size: int, matches: (string, string) -> bool, lib: PasswordSize.NumberLib)
    requires i < |args|
    ensures Mentions(args, i + 1, {SizeArg}, matches) ==>
      (LastSizeIs(args, i, size, matches, lib) <==> LastSizeIs(args, i + 1, size, matches, lib))
    ensures args[i].Some? && Recognise(args[i].value, matches) == SizeArg && !Mentions(args, i + 1, {SizeArg}, matches) ==>
      (LastSizeIs(args, i, size, matches, lib) <==> size == PasswordSize.Value(args[i].value, lib))
  {
    if Mentions(args, i + 1, {SizeArg}, matches) && LastSizeIs(args, i, size, matches, lib) {
      var j :| i <= j < |args| && args[j].Some? && Recognise(args[j].value, matches) == SizeArg
        && size == PasswordSize.Value(args[j].value, lib) && !Mentions(args, j + 1, {SizeArg}, matches);
    }
    if args[i].Some? && Recognise(args[i].value, matches) == SizeArg && !Mentions(args, i + 1, {SizeArg}, matches) {
      if LastSizeIs(args, i, size, matches, lib) {
        var j :| i <= j < |args| && args[j].Some? && Recognise(args[j].value, matches) == SizeArg
          && size == PasswordSize.Value(args[j].value, lib) && !Mentions(args, j + 1, {SizeArg}, matches);
      }
    }
  }

  /** The loop runs to the end exactly when no argument asks for help and
      every size argument is accepted. */
  lemma {:induction false} ProcessFromRunsThrough(args: seq<Option<string>>, i: nat, opts: Options,
                                                  matches: (string, string) -> bool, lib: PasswordSize.NumberLib)
    requires i <= |args|
    decreases |args| - i
    ensures ProcessFrom(args, i, opts, matches, lib).Continue?
        <==> !Mentions(args, i, {HelpSw}, matches) && SizesAccepted(args, i, matches, lib)
  {
    if i < |args| {
      MentionsStep(args, i, {HelpSw}, matches);
      SizesAcceptedStep(args, i, matches, lib);
      match args[i]
      case None =>
        ProcessFromRunsThrough(args, i + 1, opts, matches, lib);
      case Some(arg) =>
        var step := Apply(Recognise(arg, matches), arg, opts, lib);
        if step.Continue? {
          ProcessFromRunsThrough(args, i + 1, step.value, matches, lib);
        }
    }
  }

  /** The six on/off options and the branches that turn each on. */
  datatype Field = LowerF | UpperF | DigitsF | SymbolsF | FormattingF | EntropyF

  function Get(o: Options, f: Field): bool {
    match f
    case LowerF => o.lower
    case UpperF => o.upper
    case DigitsF => o.digits
    case SymbolsF => o.symbols
    case FormattingF => o.formatting
    case EntropyF => o.entropy
  }

  function TurnsOn(f: Field): set<Switch> {
    match f
    case LowerF => {LowerSw, AllSw}
    case UpperF => {UpperSw, AllSw}
    case DigitsF => {DigitSw, AllSw}
    case SymbolsF => {SymbolSw, AllSw}
    case FormattingF => {FormatSw}
    case EntropyF => {EntropySw}
  }

  /** One branch turns an option on exactly when it is one of the branches
      for that option, and never turns one off. */
  lemma ApplyOption(s: Switch, arg: string, opts: Options, lib: PasswordSize.NumberLib, f: Field)
    requires Apply(s, arg, opts, lib).Continue?
    ensures Get(Apply(s, arg, opts, lib).value, f) <==> Get(opts, f) || s in TurnsOn(f)
  {
  }

  lemma {:induction false} ProcessFromOption(args: seq<Option<string>>, i: nat, opts: Options,
                                             matches: (string, string) -> bool, lib: PasswordSize.NumberLib, f: Field)
    requires i <= |args|
    requires ProcessFrom(args, i, opts, matches, lib).Continue?
    decreases |args| - i
    ensures Get(ProcessFrom(args, i, opts, matches, lib).value, f)
        <==> Get(opts, f) || Mentions(args, i, TurnsOn(f), matches)
  {
    if i < |args| {
      MentionsStep(args, i, TurnsOn(f), matches);
      match args[i]
      case None =>
        ProcessFromOption(args, i + 1, opts, matches, lib, f);
      case Some(arg) =>
        var step := Apply(Recognise(arg, matches), arg, opts, lib);
        ApplyOption(Recognise(arg, matches), arg, opts, lib, f);
        ProcessFromOption(args, i + 1, step.value, matches, lib, f);
    }
  }

  /** When the loop runs to the end, each option is on exactly when it was
      on before or some argument turns it on. */
  lemma ProcessFromOptions(args: seq<Option<string>>, i: nat, opts: Options,
                           matches: (string, string) -> bool, lib: PasswordSize.NumberLib)
    requires i <= |args|
    requires ProcessFrom(args, i, opts, matches, lib).Continue?
    ensures var o := ProcessFrom(args, i, opts, matches, lib).value;
      && (o.lower <==> opts.lower || Mentions(args, i, {LowerSw, AllSw}, matches))
      && (o.upper <==> opts.upper || Mentions(args, i, {UpperSw, AllSw}, matches))
      && (o.digits <==> opts.digits || Mentions(args, i, {DigitSw, AllSw}, matches))
      && (o.symbols <==> opts.symbols || Mentions(args, i, {SymbolSw, AllSw}, matches))
      && (o.formatting <==> opts.formatting || Mentions(args, i, {FormatSw}, matches))
      && (o.entropy <==> opts.entropy || Mentions(args, i, {EntropySw}, matches))
  {
    ProcessFromOption(args, i, opts, matches, lib, LowerF);
    ProcessFromOption(args, i, opts, matches, lib, UpperF);
    ProcessFromOption(args, i, opts, matches, lib, DigitsF);
    ProcessFromOption(args, i, opts, matches, lib, SymbolsF);
    ProcessFromOption(args, i, opts, matches, lib, FormattingF);
    ProcessFromOption(args, i, opts, matches, lib, EntropyF);
  }

  /** When the loop runs to the end, the size is the one the last size
      argument asks for, or unchanged when there is none. */
  lemma {:induction false} ProcessFromSize(args: seq<Option<string>>, i: nat, opts: Options,
                                           matches: (string, string) -> bool, lib: PasswordSize.NumberLib)
    requires i <= |args|
    requires ProcessFrom(args, i, opts, matches, lib).Continue?
    decreases |args| - i
    ensures var o := ProcessFrom(args, i, opts, matches, lib).value;
      && (!Mentions(args, i, {SizeArg}, matches) ==> o.requestedPasswordSize == opts.requestedPasswordSize)
      && (Mentions(args, i, {SizeArg}, matches) ==> LastSizeIs(args, i, o.requestedPasswordSize, matches, lib))
  {
    if i < |args| {
      MentionsStep(args, i, {SizeArg}, matches);
      var o := ProcessFrom(args, i, opts, matches, lib).value;
      LastSizeStep(args, i, o.requestedPasswordSize, matches, lib);
      match args[i]
      case None =>
        ProcessFromSize(args, i + 1, opts, matches, lib);
      case Some(arg) =>
        var step := Apply(Recognise(arg, matches), arg, opts, lib);
        ProcessFromSize(args, i + 1, step.value, matches, lib);
    }
  }

  /** `process_arguments_`: no arguments at all is an error; otherwise the
      loop runs over all of them from the defaults. */
  function ProcessArguments(args: seq<Option<string>>, matches: (string, string) -> bool,
                            lib: PasswordSize.NumberLib): (r: Status<Options>)
    ensures |args| == 0 <==> r == ExitFailure(NoArguments)
    ensures |args| > 0 ==> r == ProcessFrom(args, 0, DEFAULT_OPTIONS, matches, lib)
  {
    if |args| == 0 then ExitFailure(NoArguments)
    else ProcessFrom(args, 0, DEFAULT_OPTIONS, matches, lib)
  }

  /** With exact comparison, `--entropy` is not a switch: it reaches the
      size check, whose length test rejects it. */
  lemma EntropyLongFormRejected(lib: PasswordSize.NumberLib)
    ensures Recognise("--entropy", Exact) == SizeArg
    ensures ProcessArguments([Some("--entropy")], Exact, lib) == ExitFailure(MaxPwSize)
  {
  }

  /** The branch that does what a Base handler does. */
  function SwitchOf(h: BaseArgs.Handler): Switch {
    match h
    case Help => HelpSw
    case Lower => LowerSw
    case Upper => UpperSw
    case Digit => DigitSw
    case Symbol => SymbolSw
    case Format => FormatSw
    case All => AllSw
    case Entropy => EntropySw
    case Size => SizeArg
  }

  /** With exact comparison every short switch of the C versions selects
      the same branch here. */
  lemma ShortFormsMatchBase(c: char)
    requires c in BaseArgs.SHORT_OPTIONS
    ensures Recognise(['-', c], Exact) == SwitchOf(BaseArgs.SHORT_OPTIONS[c])
  {
  }

  /** Every long switch of the C versions but `--entropy` selects the same
      branch here. */
  lemma LongFormsMatchBase(name: string)
    requires name in BaseArgs.LONG_OPTIONS && name != "entropy"
    ensures Recognise("--" + name, Exact) == SwitchOf(BaseArgs.LONG_OPTIONS[name])
  {
    assert BaseArgs.LONG_OPTIONS.Keys == {"all", "help", "lower", "upper", "digit", "symbol", "format", "entropy"};
    var arg := "--" + name;
    if name == "all" { assert arg == "--all"; RecogniseExact(arg, AllSw); }
    else if name == "help" { assert arg == "--help"; RecogniseExact(arg, HelpSw); }
    else if name == "lower" { assert arg == "--lower"; RecogniseExact(arg, LowerSw); }
    else if name == "upper" { assert arg == "--upper"; RecogniseExact(arg, UpperSw); }
    else if name == "digit" { assert arg == "--digit"; RecogniseExact(arg, DigitSw); }
    else if name == "symbol" { assert arg == "--symbol"; RecogniseExact(arg, SymbolSw); }
    else { assert arg == "--format"; RecogniseExact(arg, FormatSw); }
  }
}
