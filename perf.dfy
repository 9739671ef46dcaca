/**
 * The load tool's command line (`Arguments.Parse` with `ReadValue` and
 * `ReadInt`) and the XML escaping its document generator uses
 * (`DocxGenerator.EscapeXml`). `Environment.ProcessorCount` is a
 * parameter; `int.TryParse` is modelled for the invariant culture.
 */
module PerfArguments {
  import opened Wrappers
  import opened Chars
  import opened Text

  /** The `Arguments` record; `None` stands for a null string. */
  datatype Arguments = Arguments(
    rootPath: Option<string>,
    generate: bool,
    documents: int,
    approxTextKbPerDocument: int,
    folders: int,
    paragraphsPerDocument: int,
    needle: string,
    needleEvery: int,
    matchesPerNeedleDocument: int,
    query: Option<string>,
    warmupRuns: int,
    searchRuns: int,
    minQueryLength: int,
    minTokenLength: int,
    maxResults: int,
    parallelism: int,
    keepTemp: bool,
    showHelp: bool)

  /** The integer-valued options, each naming one field of `Arguments`. */
  datatype IntField = Docs | Kb | Folders | Paragraphs | NeedleEvery | Matches | Warmup | Runs | MinQuery | MinToken | MaxResultsField | Parallel

  /** What a recognised argument is: a switch, an option with a text value, or one with an integer value. */
  datatype Opt = HelpOpt | GenerateOpt | KeepOpt | RootOpt | NeedleOpt | QueryOpt | IntOpt(field: IntField)

  const MinInt32: int := -0x8000_0000
  const MaxInt32: int := 0x7FFF_FFFF

  /** The option's spelling on the command line, also the name its error messages use. */
  function OptionName(f: IntField): string {
    match f
    case Docs => "--docs"
    case Kb => "--kb"
    case Folders => "--folders"
    case Paragraphs => "--paragraphs"
    case NeedleEvery => "--needleEvery"
    case Matches => "--matches"
    case Warmup => "--warmup"
    case Runs => "--runs"
    case MinQuery => "--minQuery"
    case MinToken => "--minToken"
    case MaxResultsField => "--maxResults"
    case Parallel => "--parallel"
  }

  /** How many labels the `switch` of `Parse` has. */
  const LabelCount: nat := 19

  /** The `switch` labels of `Parse`, in its order. */
  function Label(n: nat): (string, Opt)
    requires n < LabelCount
  {
    match n
    case 0 => ("-h", HelpOpt)
    case 1 => ("--help", HelpOpt)
    case 2 => ("--root", RootOpt)
    case 3 => ("--generate", GenerateOpt)
    case 4 => ("--docs", IntOpt(Docs))
    case 5 => ("--kb", IntOpt(Kb))
    case 6 => ("--folders", IntOpt(Folders))
    case 7 => ("--paragraphs", IntOpt(Paragraphs))
    case 8 => ("--needle", NeedleOpt)
    case 9 => ("--needleEvery", IntOpt(NeedleEvery))
    case 10 => ("--matches", IntOpt(Matches))
    case 11 => ("--query", QueryOpt)
    case 12 => ("--warmup", IntOpt(Warmup))
    case 13 => ("--runs", IntOpt(Runs))
    case 14 => ("--minQuery", IntOpt(MinQuery))
    case 15 => ("--minToken", IntOpt(MinToken))
    case 16 => ("--maxResults", IntOpt(MaxResultsField))
    case 17 => ("--parallel", IntOpt(Parallel))
    case _ => ("--keep", KeepOpt)
  }

  /** The labels from the `n`-th on, tried in order against `arg`, compared ordinally; `None` when none matches. */
  function OptionFrom(arg: string, n: nat): (r: Option<Opt>)
    requires n <= LabelCount
    ensures r.Some? ==> exists k | n <= k < LabelCount :: Label(k) == (arg, r.value)
    decreases LabelCount - n
  {
    if n == LabelCount then None
    else if Label(n).0 == arg then Some(Label(n).1)
    else OptionFrom(arg, n + 1)
  }

  /** What the `switch` of `Parse` makes of one argument; `None` for its `default` case. */
  function OptionOf(arg: string): Option<Opt> {
    OptionFrom(arg, 0)
  }

  /** A label that no earlier one equals is the case taken. */
  lemma {:induction false} OptionFromAt(n: nat, k: nat)
    requires n <= k < LabelCount
    requires forall j | n <= j < k :: Label(j).0 != Label(k).0
    ensures OptionFrom(Label(k).0, n) == Some(Label(k).1)
    decreases k - n
  {
    if n < k {
      OptionFromAt(n + 1, k);
    }
  }

  /** The position of an integer option among the labels. */
  function IntLabel(f: IntField): (k: nat)
    ensures k < LabelCount && Label(k) == (OptionName(f), IntOpt(f))
  {
    match f
    case Docs => 4 case Kb => 5 case Folders => 6 case Paragraphs => 7 case NeedleEvery => 9
    case Matches => 10 case Warmup => 12 case Runs => 13 case MinQuery => 14 case MinToken => 15
    case MaxResultsField => 16 case Parallel => 17
  }

  /** Every integer option is recognised under its own name. */
  lemma OptionNamesRecognised(f: IntField)
    ensures OptionOf(OptionName(f)) == Some(IntOpt(f))
  {
    OptionFromAt(0, IntLabel(f));
  }

  /** Each label that names an option with a value is that option's own spelling. */
  lemma LabelSpelling(k: nat)
    requires k < LabelCount
    ensures Label(k).1 == RootOpt ==> Label(k).0 == "--root"
    ensures Label(k).1 == NeedleOpt ==> Label(k).0 == "--needle"
    ensures Label(k).1 == QueryOpt ==> Label(k).0 == "--query"
    ensures Label(k).1.IntOpt? ==> Label(k).0 == OptionName(Label(k).1.field)
  {
    match k {
      case 0 => case 1 => case 2 => case 3 => case 4 => case 5 => case 6 => case 7 => case 8 => case 9 =>
      case 10 => case 11 => case 12 => case 13 => case 14 => case 15 => case 16 => case 17 => case _ =>
    }
  }

  /** An argument recognised as an option with a value is spelled as the name that option's messages use. */
  lemma RecognisedName(arg: string)
    requires OptionOf(arg).Some?
    ensures OptionOf(arg) == Some(RootOpt) ==> arg == "--root"
    ensures OptionOf(arg) == Some(NeedleOpt) ==> arg == "--needle"
    ensures OptionOf(arg) == Some(QueryOpt) ==> arg == "--query"
    ensures OptionOf(arg).value.IntOpt? ==> arg == OptionName(OptionOf(arg).value.field)
  {
    var k :| 0 <= k < LabelCount && Label(k) == (arg, OptionOf(arg).value);
    LabelSpelling(k);
  }

  function IntOf(a: Arguments, f: IntField): int {
    match f
    case Docs => a.documents
    case Kb => a.approxTextKbPerDocument
    case Folders => a.folders
    case Paragraphs => a.paragraphsPerDocument
    case NeedleEvery => a.needleEvery
    case Matches => a.matchesPerNeedleDocument
    case Warmup => a.warmupRuns
    case Runs => a.searchRuns
    case MinQuery => a.minQueryLength
    case MinToken => a.minTokenLength
    case MaxResultsField => a.maxResults
    case Parallel => a.parallelism
  }

  /** Only the integer fields differ, if at all. */
  predicate SameNonInts(a: Arguments, b: Arguments) {
    && a.rootPath == b.rootPath && a.generate == b.generate && a.needle == b.needle
    && a.query == b.query && a.keepTemp == b.keepTemp && a.showHelp == b.showHelp
  }

  /** The assignment `Parse` makes for an integer option: that field takes the value, nothing else changes. */
  function WithInt(a: Arguments, f: IntField, v: int): (r: Arguments)
    ensures IntOf(r, f) == v
    ensures SameNonInts(r, a)
  {
    match f
    case Docs => a.(documents := v)
    case Kb => a.(approxTextKbPerDocument := v)
    case Folders => a.(folders := v)
    case Paragraphs => a.(paragraphsPerDocument := v)
    case NeedleEvery => a.(needleEvery := v)
    case Matches => a.(matchesPerNeedleDocument := v)
    case Warmup => a.(warmupRuns := v)
    case Runs => a.(searchRuns := v)
    case MinQuery => a.(minQueryLength := v)
    case MinToken => a.(minTokenLength := v)
    case MaxResultsField => a.(maxResults := v)
    case Parallel => a.(parallelism := v)
  }

  /** Setting one integer field leaves every other one as it was. */
  lemma WithIntKeepsOthers(a: Arguments, f: IntField, v: int, g: IntField)
    requires g != f
    ensures IntOf(WithInt(a, f, v), g) == IntOf(a, g)
  {
  }

  /** The values `Parse` starts from. */
  function Defaults(processorCount: int): Arguments {
    Arguments(None, false, 1000, 16, 20, 30, "тз бим", 3, 3, None, 5, 50, 3, 2, 50, processorCount, false, false)
  }

  /** The least value `Parse` lets through: no documents and no warm-up are allowed, everything else is at least one. */
  function Floor(f: IntField): int {
    if f == Docs || f == Warmup then 0 else 1
  }

  function Max(a: int, b: int): int {
    if a >= b then a else b
  }

  /** The `Math.Max` clamps at the end of `Parse`. */
  function Clamped(a: Arguments): (r: Arguments)
    ensures SameNonInts(r, a)
  {
    a.(documents := Max(0, a.documents),
       approxTextKbPerDocument := Max(1, a.approxTextKbPerDocument),
       folders := Max(1, a.folders),
       paragraphsPerDocument := Max(1, a.paragraphsPerDocument),
       needleEvery := Max(1, a.needleEvery),
       matchesPerNeedleDocument := Max(1, a.matchesPerNeedleDocument),
       warmupRuns := Max(0, a.warmupRuns),
       searchRuns := Max(1, a.searchRuns),
       minQueryLength := Max(1, a.minQueryLength),
       minTokenLength := Max(1, a.minTokenLength),
       maxResults := Max(1, a.maxResults),
       parallelism := Max(1, a.parallelism))
  }

  /**
   * After the clamps every integer field is at least its floor, a value
   * already there is kept, and one below it is raised to it.
   */
  lemma ClampedField(a: Arguments, f: IntField)
    ensures IntOf(Clamped(a), f) >= Floor(f)
    ensures IntOf(a, f) >= Floor(f) ==> IntOf(Clamped(a), f) == IntOf(a, f)
    ensures IntOf(a, f) < Floor(f) ==> IntOf(Clamped(a), f) == Floor(f)
  {
  }

  // ---- int.TryParse ----

  /** The white space number parsing skips: the space and U+0009..U+000D. */
  predicate IsNumberWhite(c: char) {
    c == ' ' || '\t' <= c <= '\r'
  }

  function TrimNumberStart(s: string): (r: string)
    ensures |r| <= |s| && r == s[|s| - |r|..]
    ensures r == [] || !IsNumberWhite(r[0])
  {
    if s != [] && IsNumberWhite(s[0]) then TrimNumberStart(s[1..]) else s
  }

  function TrimNumberEnd(s: string): (r: string)
    ensures |r| <= |s| && r == s[..|r|]
    ensures r == [] || !IsNumberWhite(r[|r| - 1])
  {
    if s != [] && IsNumberWhite(s[|s| - 1]) then TrimNumberEnd(s[..|s| - 1]) else s
  }

  predicate AllDigits(s: string) {
    forall i | 0 <= i < |s| :: IsDigit(s[i])
  }

  /** The value of a run of decimal digits, most significant first. */
  function DigitsValue(s: string): nat
    requires AllDigits(s)
  {
    if s == [] then 0 else DigitsValue(s[..|s| - 1]) * 10 + (s[|s| - 1] as int - '0' as int)
  }

  /**
   * `int.TryParse(s, out v)` with the integer number style: white space
   * around, an optional sign, at least one digit, and a value that fits in
   * 32 bits; `None` when it returns false.
   */
  function ParseInt(s: string): (r: Option<int>)
    ensures r.Some? ==> MinInt32 <= r.value <= MaxInt32
  {
    var t := TrimNumberEnd(TrimNumberStart(s));
    var signed := t != [] && (t[0] == '-' || t[0] == '+');
    var digits := if signed then t[1..] else t;
    if digits == [] || !AllDigits(digits) then None
    else
      var magnitude: int := DigitsValue(digits);
      var v := if signed && t[0] == '-' then -magnitude else magnitude;
      if MinInt32 <= v <= MaxInt32 then Some(v) else None
  }

  /** The digit `DigitChar` writes stands for its value. */
  lemma DigitCharValue(d: nat)
    requires d < 10
    ensures IsDigit(DigitChar(d)) && DigitChar(d) as int - '0' as int == d
  {
  }

  /** Reading the digits `NatToString` writes gives the number back. */
  lemma {:induction false} DigitsOfNat(n: nat)
    ensures AllDigits(NatToString(n)) && DigitsValue(NatToString(n)) == n
  {
    var s := NatToString(n);
    DigitCharValue(n % 10);
    if n >= 10 {
      DigitsOfNat(n / 10);
      assert s == NatToString(n / 10) + [DigitChar(n % 10)];
      assert s[..|s| - 1] == NatToString(n / 10);
      assert n == (n / 10) * 10 + n % 10;
    } else {
      assert s == [DigitChar(n)];
    }
  }

  /** Number white space never starts or ends what `ParseInt` reads, so such text is read as it is. */
  lemma TrimNumberNothing(s: string)
    requires s != [] && !IsNumberWhite(s[0]) && !IsNumberWhite(s[|s| - 1])
    ensures TrimNumberEnd(TrimNumberStart(s)) == s
  {
    assert TrimNumberStart(s) == s;
  }

  /** Unsigned digits are read as their value, when it fits in 32 bits. */
  lemma ParseIntOfDigits(digits: string)
    requires digits != [] && AllDigits(digits)
    ensures ParseInt(digits) == if DigitsValue(digits) <= MaxInt32 then Some(DigitsValue(digits)) else None
  {
    TrimNumberNothing(digits);
  }

  /** Digits after a minus sign are read as the negated value, when it fits in 32 bits. */
  lemma ParseIntOfNegative(s: string)
    requires |s| >= 2 && s[0] == '-' && AllDigits(s[1..])
    ensures var v := -(DigitsValue(s[1..]) as int);
      ParseInt(s) == if MinInt32 <= v then Some(v) else None
  {
    assert IsDigit(s[1..][|s| - 2]);
    TrimNumberNothing(s);
  }

  /** `ParseInt` reads back every 32-bit value `IntToString` writes. */
  lemma ParseIntRoundTrip(n: int)
    requires MinInt32 <= n <= MaxInt32
    ensures ParseInt(IntToString(n)) == Some(n)
  {
    if n < 0 {
      DigitsOfNat(-n);
      var s := IntToString(n);
      assert s[1..] == NatToString(-n);
      ParseIntOfNegative(s);
    } else {
      DigitsOfNat(n);
      ParseIntOfDigits(NatToString(n));
    }
  }

  // ---- Parse ----

  function MissingValue(name: string): Error {
    Argument("Missing value for " + name)
  }

  function InvalidInt(name: string, value: string): Error {
    Argument("Invalid int for " + name + ": " + value)
  }

  function UnknownArgument(arg: string): Error {
    Argument("Unknown argument: " + arg + ". Use --help.")
  }

  /** The argument after position `i`, if there is one. */
  function NextArg(args: seq<string>, i: nat): (r: Option<string>)
    ensures r.Some? <==> i + 1 < |args|
    ensures r.Some? ==> r.value == args[i + 1]
  {
    if i + 1 < |args| then Some(args[i + 1]) else None
  }

  /** What `ReadValue` gives: the next argument, or an exception when there is none. */
  function ValueOf(next: Option<string>, name: string): (r: Result<string, Error>)
    ensures next.None? ==> r == Failure(MissingValue(name))
    ensures next.Some? ==> r == Success(next.value)
  {
    match next
    case None => Failure(MissingValue(name))
    case Some(v) => Success(v)
  }

  /** What `ReadInt` gives: the next argument read as a 32-bit integer, or the exception it throws. */
  function IntValueOf(next: Option<string>, name: string): (r: Result<int, Error>)
    ensures next.None? ==> r == Failure(MissingValue(name))
    ensures next.Some? && ParseInt(next.value).None? ==> r == Failure(InvalidInt(name, next.value))
    ensures next.Some? && ParseInt(next.value).Some? ==> r == Success(ParseInt(next.value).value)
  {
    match ValueOf(next, name)
    case Failure(e) => Failure(e)
    case Success(v) =>
      match ParseInt(v)
      case None => Failure(InvalidInt(name, v))
      case Some(n) => Success(n)
  }

  /** What one case of the `switch` of `Parse` does to the values. */
  datatype Action =
    | ShowHelp
    | SetGenerate
    | SetKeep
    | SetRoot(path: string)
    | SetNeedle(needle: string)
    | SetQuery(query: string)
    | SetInt(field: IntField, value: int)

  /** How many arguments a case uses: the option, and its value when it takes one. */
  function Width(action: Action): nat {
    if action.ShowHelp? || action.SetGenerate? || action.SetKeep? then 1 else 2
  }

  /** The assignment the case makes; nothing else changes. */
  function Apply(action: Action, a: Arguments): Arguments {
    match action
    case ShowHelp => a.(showHelp := true)
    case SetGenerate => a.(generate := true)
    case SetKeep => a.(keepTemp := true)
    case SetRoot(v) => a.(rootPath := Some(v))
    case SetNeedle(v) => a.(needle := v)
    case SetQuery(v) => a.(query := Some(v))
    case SetInt(f, n) => WithInt(a, f, n)
  }

  /**
   * The `switch` of `Parse` on one argument `arg`, recognised as `opt`,
   * with `next` the argument after it: the case taken, or the exception
   * thrown. A case that takes a value takes `next`.
   */
  function Round(opt: Option<Opt>, arg: string, next: Option<string>): (r: Result<Action, Error>)
    ensures r.Success? && Width(r.value) == 2 ==> next.Some?
  {
    match opt
    case None => Failure(UnknownArgument(arg))
    case Some(HelpOpt) => Success(ShowHelp)
    case Some(GenerateOpt) => Success(SetGenerate)
    case Some(KeepOpt) => Success(SetKeep)
    case Some(RootOpt) =>
      (match ValueOf(next, "--root")
       case Failure(e) => Failure(e)
       case Success(v) => Success(SetRoot(v)))
    case Some(NeedleOpt) =>
      (match ValueOf(next, "--needle")
       case Failure(e) => Failure(e)
       case Success(v) => Success(SetNeedle(v)))
    case Some(QueryOpt) =>
      (match ValueOf(next, "--query")
       case Failure(e) => Failure(e)
       case Success(v) => Success(SetQuery(v)))
    case Some(IntOpt(f)) =>
      match IntValueOf(next, OptionName(f))
      case Failure(e) => Failure(e)
      case Success(n) => Success(SetInt(f, n))
  }

  /** The argument after the first one, if there is one. */
  function Second(args: seq<string>): (r: Option<string>)
    ensures r.Some? <==> |args| > 1
    ensures r.Some? ==> r.value == args[1]
  {
    if |args| > 1 then Some(args[1]) else None
  }

  /**
   * One round of the loop of `Parse` on the arguments still to scan: the
   * values after it and how many arguments it used, two when it took a
   * value; or the exception the round throws.
   */
  function Step(args: seq<string>, a: Arguments): (r: Result<(Arguments, nat), Error>)
    requires args != []
    ensures r.Success? ==> 1 <= r.value.1 <= |args|
  {
    match Round(OptionOf(args[0]), args[0], Second(args))
    case Failure(e) => Failure(e)
    case Success(action) => Success((Apply(action, a), Width(action)))
  }

  /** The scan of `Parse` over the arguments still to come, with the values set so far in `a`. */
  function ParseFrom(args: seq<string>, a: Arguments): Result<Arguments, Error>
    decreases |args|
  {
    if args == [] then Success(a)
    else
      match Step(args, a)
      case Failure(e) => Failure(e)
      case Success(p) => ParseFrom(args[p.1..], p.0)
  }

  /** `Arguments.Parse`: the scan from the defaults, then the clamps; an `ArgumentException` is a failure. */
  function Parsed(args: seq<string>, processorCount: int): Result<Arguments, Error> {
    match ParseFrom(args, Defaults(processorCount))
    case Failure(e) => Failure(e)
    case Success(a) => Success(Clamped(a))
  }

  /** A case that succeeds without an argument after it takes none, so one after it changes nothing. */
  lemma RoundIgnoresNext(opt: Option<Opt>, arg: string, next: Option<string>)
    requires Round(opt, arg, None).Success?
    ensures Round(opt, arg, next) == Round(opt, arg, None)
  {
  }

  /** No case clears `ShowHelp`. */
  lemma ApplyKeepsHelp(action: Action, a: Arguments)
    requires a.showHelp
    ensures Apply(action, a).showHelp
  {
  }

  /** A round that succeeds on `args` does the same with more arguments after them. */
  lemma StepExtends(args: seq<string>, extra: seq<string>, a: Arguments)
    requires args != [] && Step(args, a).Success?
    ensures Step(args + extra, a) == Step(args, a)
  {
    var all := args + extra;
    assert all[0] == args[0];
    if |args| > 1 {
      assert Second(all) == Second(args);
    } else {
      RoundIgnoresNext(OptionOf(args[0]), args[0], Second(all));
    }
  }

  /** A scan whose first round succeeds goes on from where that round leaves it. */
  lemma ParseFromUnfold(args: seq<string>, a: Arguments)
    requires args != [] && Step(args, a).Success?
    ensures ParseFrom(args, a) == ParseFrom(args[Step(args, a).value.1..], Step(args, a).value.0)
  {
  }

  lemma SliceAppend<T>(xs: seq<T>, ys: seq<T>, n: nat)
    requires n <= |xs|
    ensures (xs + ys)[n..] == xs[n..] + ys
  {
  }

  /** More arguments after a scan that succeeds are scanned from where it left the values. */
  lemma {:induction false} ParseFromAppend(args: seq<string>, extra: seq<string>, a: Arguments)
    requires ParseFrom(args, a).Success?
    ensures ParseFrom(args + extra, a) == ParseFrom(extra, ParseFrom(args, a).value)
    decreases |args|
  {
    if args == [] {
      assert args + extra == extra;
    } else {
      var all := args + extra;
      StepExtends(args, extra, a);
      var p := Step(args, a).value;
      ParseFromUnfold(args, a);
      ParseFromUnfold(all, a);
      SliceAppend(args, extra, p.1);
      ParseFromAppend(args[p.1..], extra, p.0);
    }
  }

  /** A round is the case its argument is recognised as, applied, with the argument after it. */
  lemma StepOf(args: seq<string>, a: Arguments, opt: Option<Opt>, next: Option<string>)
    requires args != [] && OptionOf(args[0]) == opt && Second(args) == next
    ensures var round := Round(opt, args[0], next);
      Step(args, a) == if round.Failure? then Failure(round.error) else Success((Apply(round.value, a), Width(round.value)))
  {
  }

  /** A round on an integer option and a value sets that field to the value read, or throws when it is not a 32-bit integer. */
  lemma StepIntOption(args: seq<string>, f: IntField, a: Arguments)
    requires |args| >= 2 && args[0] == OptionName(f)
    ensures Step(args, a) == if ParseInt(args[1]).None? then Failure(InvalidInt(OptionName(f), args[1]))
                             else Success((WithInt(a, f, ParseInt(args[1]).value), 2))
  {
    OptionNamesRecognised(f);
    StepOf(args, a, Some(IntOpt(f)), Some(args[1]));
    RoundIntValue(f, args[1]);
    if ParseInt(args[1]).Some? {
      var n := ParseInt(args[1]).value;
      assert Apply(SetInt(f, n), a) == WithInt(a, f, n);
    }
  }

  /** The case of an integer option with a value after it. */
  lemma RoundIntValue(f: IntField, value: string)
    ensures Round(Some(IntOpt(f)), OptionName(f), Some(value))
      == if ParseInt(value).None? then Failure(InvalidInt(OptionName(f), value)) else Success(SetInt(f, ParseInt(value).value))
  {
  }

  /**
   * A repeated integer option keeps the value it is given last: after any
   * arguments that parse, `--docs 7`, say, sets the documents to seven
   * (clamped), whatever was set before.
   */
  lemma LastValueWins(args: seq<string>, f: IntField, value: string, processorCount: int)
    requires ParseFrom(args, Defaults(processorCount)).Success?
    requires ParseInt(value).Some?
    ensures Parsed(args + [OptionName(f), value], processorCount).Success?
    ensures IntOf(Parsed(args + [OptionName(f), value], processorCount).value, f) == Max(Floor(f), ParseInt(value).value)
  {
    var before := ParseFrom(args, Defaults(processorCount)).value;
    var tail := [OptionName(f), value];
    ParseFromAppend(args, tail, Defaults(processorCount));
    StepIntOption(tail, f, before);
    ParseFromUnfold(tail, before);
    assert tail[2..] == [];
    ClampedField(WithInt(before, f, ParseInt(value).value), f);
  }

  /** `--help` sets `ShowHelp` and the scan goes on with the arguments after it. */
  lemma HelpKeepsScanning(args: seq<string>, rest: seq<string>, a: Arguments)
    requires ParseFrom(args, a).Success?
    ensures ParseFrom(args + (["--help"] + rest), a) == ParseFrom(rest, ParseFrom(args, a).value.(showHelp := true))
  {
    var before := ParseFrom(args, a).value;
    var tail := ["--help"] + rest;
    ParseFromAppend(args, tail, a);
    assert tail[0] == "--help" && tail[1..] == rest;
    assert Step(tail, before) == Success((before.(showHelp := true), 1));
  }

  /** Once set, `ShowHelp` stays set whatever the scan meets later. */
  lemma {:induction false} HelpStays(args: seq<string>, a: Arguments)
    requires a.showHelp && ParseFrom(args, a).Success?
    ensures ParseFrom(args, a).value.showHelp
    decreases |args|
  {
    if args != [] {
      var action := Round(OptionOf(args[0]), args[0], Second(args)).value;
      ApplyKeepsHelp(action, a);
      var p := Step(args, a).value;
      HelpStays(args[p.1..], p.0);
    }
  }

  /** An argument the `switch` does not know, reached by the scan, throws. */
  lemma UnknownArgumentThrows(args: seq<string>, arg: string, rest: seq<string>, processorCount: int)
    requires ParseFrom(args, Defaults(processorCount)).Success?
    requires OptionOf(arg).None?
    ensures Parsed(args + ([arg] + rest), processorCount) == Failure(UnknownArgument(arg))
  {
    ParseFromAppend(args, [arg] + rest, Defaults(processorCount));
    assert ([arg] + rest)[0] == arg;
  }

  predicate TakesValue(arg: string) {
    OptionOf(arg).Some? && !(OptionOf(arg).value in {HelpOpt, GenerateOpt, KeepOpt})
  }

  /** An option that takes a value, reached by the scan in last position, throws for its missing value. */
  lemma MissingValueThrows(args: seq<string>, arg: string, processorCount: int)
    requires ParseFrom(args, Defaults(processorCount)).Success?
    requires TakesValue(arg)
    ensures Parsed(args + [arg], processorCount) == Failure(MissingValue(arg))
  {
    ParseFromAppend(args, [arg], Defaults(processorCount));
    RecognisedName(arg);
  }

  /** An integer option, reached by the scan, whose value is not a 32-bit integer throws. */
  lemma InvalidIntThrows(args: seq<string>, f: IntField, value: string, rest: seq<string>, processorCount: int)
    requires ParseFrom(args, Defaults(processorCount)).Success?
    requires ParseInt(value).None?
    ensures Parsed(args + ([OptionName(f), value] + rest), processorCount) == Failure(InvalidInt(OptionName(f), value))
  {
    var tail := [OptionName(f), value] + rest;
    ParseFromAppend(args, tail, Defaults(processorCount));
    StepIntOption(tail, f, ParseFrom(args, Defaults(processorCount)).value);
  }

  /** With no arguments every value is its default, the parallelism raised to one if need be. */
  lemma NoArgumentsGiveDefaults(processorCount: int)
    ensures Parsed([], processorCount) == Success(Defaults(Max(1, processorCount)))
  {
  }

  /** Whatever the arguments, a successful parse has no negative documents or warm-up runs and every other count at least one. */
  lemma ParsedBounds(args: seq<string>, processorCount: int, f: IntField)
    requires Parsed(args, processorCount).Success?
    ensures IntOf(Parsed(args, processorCount).value, f) >= Floor(f)
  {
    ClampedField(ParseFrom(args, Defaults(processorCount)).value, f);
  }

  /** `ReadValue`: takes the next argument and moves past it, or throws without moving. */
  method ReadValue(args: seq<string>, i: nat, name: string) returns (value: Result<string, Error>, next: nat)
    ensures value == ValueOf(NextArg(args, i), name)
    ensures next == if value.Success? then i + 1 else i
  {
    if i + 1 >= |args| {
      return Failure(MissingValue(name)), i;
    }
    next := i + 1;
    value := Success(args[next]);
  }

  /** `ReadInt`: `ReadValue`, then `int.TryParse` of what it read. */
  method ReadInt(args: seq<string>, i: nat, name: string) returns (value: Result<int, Error>, next: nat)
    ensures value == IntValueOf(NextArg(args, i), name)
    ensures value.Success? ==> next == i + 1
  {
    var text;
    text, next := ReadValue(args, i, name);
    if text.Failure? {
      return Failure(text.error), next;
    }
    var parsed := ParseInt(text.value);
    if parsed.None? {
      return Failure(InvalidInt(name, text.value)), next;
    }
    value := Success(parsed.value);
  }

  lemma SliceTail<T>(xs: seq<T>, i: nat, j: nat)
    requires i <= j <= |xs|
    ensures xs[i..][j - i..] == xs[j..]
  {
  }

  /** The round on the arguments from position `i` is the `switch` on the one at `i`, with the one after it. */
  lemma StepAt(args: seq<string>, i: nat, a: Arguments)
    requires i < |args|
    ensures var round := Round(OptionOf(args[i]), args[i], NextArg(args, i));
      Step(args[i..], a) == if round.Failure? then Failure(round.error) else Success((Apply(round.value, a), Width(round.value)))
  {
    assert args[i..][0] == args[i] && Second(args[i..]) == NextArg(args, i);
  }

  /**
   * The `switch` of the loop of `Parse` on the argument at `i`: the case
   * taken, reading the option's value when it has one, and the position
   * of the last argument it used; or the exception thrown.
   */
  method ScanArgument(args: seq<string>, i: nat) returns (outcome: Result<Action, Error>, last: nat)
    requires i < |args|
    ensures outcome == Round(OptionOf(args[i]), args[i], NextArg(args, i))
    ensures outcome.Success? ==> last == i + Width(outcome.value) - 1
  {
    var arg := args[i];
    last := i;
    match OptionOf(arg) {
    case None =>
      outcome := Failure(UnknownArgument(arg));
    case Some(HelpOpt) =>
      outcome := Success(ShowHelp);
    case Some(GenerateOpt) =>
      outcome := Success(SetGenerate);
    case Some(KeepOpt) =>
      outcome := Success(SetKeep);
    case Some(RootOpt) =>
      var value;
      value, last := ReadValue(args, i, "--root");
      outcome := if value.Failure? then Failure(value.error) else Success(SetRoot(value.value));
    case Some(NeedleOpt) =>
      var value;
      value, last := ReadValue(args, i, "--needle");
      outcome := if value.Failure? then Failure(value.error) else Success(SetNeedle(value.value));
    case Some(QueryOpt) =>
      var value;
      value, last := ReadValue(args, i, "--query");
      outcome := if value.Failure? then Failure(value.error) else Success(SetQuery(value.value));
    case Some(IntOpt(f)) =>
      var value;
      value, last := ReadInt(args, i, OptionName(f));
      outcome := if value.Failure? then Failure(value.error) else Success(SetInt(f, value.value));
    }
  }

  /** `Arguments.Parse`: one pass over the arguments, each option setting its value, then the clamps. */
  method Parse(args: seq<string>, processorCount: int) returns (r: Result<Arguments, Error>)
    ensures r == Parsed(args, processorCount)
  {
    var a := Defaults(processorCount);
    var i: nat := 0;
    while i < |args|
      invariant i <= |args|
      invariant ParseFrom(args[i..], a) == ParseFrom(args, Defaults(processorCount))
      decreases |args| - i
    {
      var outcome, last := ScanArgument(args, i);
      StepAt(args, i, a);
      if outcome.Failure? {
        return Failure(outcome.error);
      }
      SliceTail(args, i, last + 1);
      a, i := Apply(outcome.value, a), last + 1;
    }
    assert args[i..] == [];
    return Success(Clamped(a));
  }
}
