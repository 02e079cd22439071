/** The options of an `env` command in a shebang line (src/platform/unix/mod.rs,
    env_shebang_command_fields): -S splits its value again, which may yield -S once more. */
module EnvOptions {
  import opened Results
  import opened Text
  import opened Expansion
  import opened EnvSplit

  const SPLIT_LIMIT: nat := 32

  datatype LongOption =
    | Argv0
    | BlockSignal
    | Chdir
    | Debug
    | DefaultSignal
    | Help
    | IgnoreEnvironment
    | IgnoreSignal
    | ListSignalHandling
    | Null
    | SplitString
    | Unset
    | Version

  const ENV_LONG_OPTIONS: seq<(LongOption, string)> := [
    (Argv0, "argv0"),
    (BlockSignal, "block-signal"),
    (Chdir, "chdir"),
    (Debug, "debug"),
    (DefaultSignal, "default-signal"),
    (Help, "help"),
    (IgnoreEnvironment, "ignore-environment"),
    (IgnoreSignal, "ignore-signal"),
    (ListSignalHandling, "list-signal-handling"),
    (Null, "null"),
    (SplitString, "split-string"),
    (Unset, "unset"),
    (Version, "version")]

  datatype Options = Options(
    ignoreEnvironment: bool,
    unsetNames: seq<string>,
    chdir: Option<string>,
    invalidSignalDisposition: bool)

  /** What checking a list of signal names gives; the tables of names are not part of this model. */
  datatype SignalVerdict = UnknownSignal | UnchangeableSignal | FineSignals

  /** What env inherits, and what it is told: the directory that the argument of -C leads to, if
      there is one, and whether a list of signals can be set. */
  datatype World = World(
    env: Environment,
    cwd: Option<string>,
    directory: string -> Option<string>,
    signals: (string, bool) -> SignalVerdict)

  datatype Action = Continue | NoCommandAction | Resplit(split: string) | InvalidAction

  /** An option's action, with the index and the options after it. */
  datatype Acted = Acted(action: Action, idx: nat, options: Options)

  datatype Outcome = Operands(fields: seq<string>, options: Options) | NoCommand | TooManySplits

  // ---------------------------------------------------------------- long options

  /** The first option at or after `from` that the name abbreviates. */
  function FirstMatch(name: string, from: nat): (k: nat)
    requires from <= |ENV_LONG_OPTIONS|
    ensures from <= k <= |ENV_LONG_OPTIONS|
    decreases |ENV_LONG_OPTIONS| - from, name
  {
    if from == |ENV_LONG_OPTIONS| || name <= ENV_LONG_OPTIONS[from].1 then from else FirstMatch(name, from + 1)
  }

  /** The only option whose name begins with this one. */
  function OnlyMatch(name: string): Option<LongOption> {
    if name == "" then None
    else
      var k := FirstMatch(name, 0);
      if k == |ENV_LONG_OPTIONS| || FirstMatch(name, k + 1) < |ENV_LONG_OPTIONS| then None
      else Some(ENV_LONG_OPTIONS[k].0)
  }

  /** The option that a name is the only one to begin with, and its value. */
  function ClassifyLongOption(arg: string): Option<(LongOption, Option<string>)> {
    if !("--" <= arg) then None
    else
      var body := arg[2..];
      var eq := IndexOf(body, 0, '=');
      var name := body[..eq];
      var value := if eq < |body| then Some(body[eq + 1..]) else None;
      match OnlyMatch(name)
      case None => None
      case Some(option) => Some((option, value))
  }

  function SignalAction(world: World, value: Option<string>, block: bool, idx: nat, options: Options): Acted {
    match value
    case None =>
      Acted(Continue, idx, if block then options else options.(invalidSignalDisposition := false))
    case Some(signals) =>
      match world.signals(signals, block)
      case UnknownSignal => Acted(InvalidAction, idx, options)
      case UnchangeableSignal => Acted(Continue, idx, options.(invalidSignalDisposition := true))
      case FineSignals => Acted(Continue, idx, options)
  }

  function LongOptionAction(world: World, arg: string, fields: seq<string>, idx: nat, options: Options): (a: Acted)
    requires idx <= |fields|
    ensures idx <= a.idx <= |fields|
  {
    match ClassifyLongOption(arg)
    case None => Acted(InvalidAction, idx, options)
    case Some((option, value)) =>
      match option
      case SplitString =>
        if value.Some? then Acted(Resplit(value.value), idx, options)
        else if idx == |fields| then Acted(Continue, idx, options)
        else Acted(Resplit(fields[idx]), idx + 1, options)
      case IgnoreEnvironment =>
        if value.Some? then Acted(InvalidAction, idx, options)
        else Acted(Continue, idx, options.(ignoreEnvironment := true))
      case Unset =>
        if value.Some? then Acted(Continue, idx, options.(unsetNames := options.unsetNames + [value.value]))
        else if idx == |fields| then Acted(Continue, idx, options)
        else Acted(Continue, idx + 1, options.(unsetNames := options.unsetNames + [fields[idx]]))
      case Chdir =>
        if value.Some? then Acted(Continue, idx, options.(chdir := value))
        else if idx == |fields| then Acted(InvalidAction, idx, options)
        else Acted(Continue, idx + 1, options.(chdir := Some(fields[idx])))
      case Argv0 =>
        Acted(Continue, if value.None? && idx < |fields| then idx + 1 else idx, options)
      case BlockSignal => SignalAction(world, value, true, idx, options)
      case DefaultSignal => SignalAction(world, value, false, idx, options)
      case IgnoreSignal => SignalAction(world, value, false, idx, options)
      case Debug => Acted(if value.Some? then InvalidAction else Continue, idx, options)
      case ListSignalHandling => Acted(if value.Some? then InvalidAction else Continue, idx, options)
      case _ => Acted(if value.Some? then InvalidAction else NoCommandAction, idx, options)
  }

  // ---------------------------------------------------------------- short options

  /** The letters of a short option from `at` on. */
  function ShortOptionAction(arg: string, at: nat, fields: seq<string>, idx: nat, options: Options): (a: Acted)
    requires at <= |arg| && idx <= |fields|
    ensures idx <= a.idx <= |fields|
    decreases |arg| - at
  {
    if at == |arg| then Acted(Continue, idx, options)
    else
      var opt, rest := arg[at], arg[at + 1..];
      if opt == 'i' then ShortOptionAction(arg, at + 1, fields, idx, options.(ignoreEnvironment := true))
      else if opt == 'v' then ShortOptionAction(arg, at + 1, fields, idx, options)
      else if opt == '0' then Acted(NoCommandAction, idx, options)
      else if opt == 'u' then
        if rest != "" then Acted(Continue, idx, options.(unsetNames := options.unsetNames + [rest]))
        else if idx == |fields| then Acted(Continue, idx, options)
        else Acted(Continue, idx + 1, options.(unsetNames := options.unsetNames + [fields[idx]]))
      else if opt == 'a' then Acted(Continue, if rest == "" && idx < |fields| then idx + 1 else idx, options)
      else if opt == 'C' then
        if rest != "" then Acted(Continue, idx, options.(chdir := Some(rest)))
        else if idx == |fields| then Acted(InvalidAction, idx, options)
        else Acted(Continue, idx + 1, options.(chdir := Some(fields[idx])))
      else if opt == 'S' then
        if rest != "" then Acted(Resplit(rest), idx, options)
        else if idx == |fields| then Acted(Continue, idx, options)
        else Acted(Resplit(fields[idx]), idx + 1, options)
      else Acted(InvalidAction, idx, options)
  }

  function OptionAction(world: World, arg: string, fields: seq<string>, idx: nat, options: Options): (a: Acted)
    requires "-" <= arg && idx <= |fields|
    ensures idx <= a.idx <= |fields|
  {
    if "--" <= arg then LongOptionAction(world, arg, fields, idx, options)
    else ShortOptionAction(arg, 1, fields, idx, options)
  }

  // ---------------------------------------------------------------- all fields

  /** What the fields from `idx` on lead to after `steps` splits. */
  function Process(world: World, fields: seq<string>, idx: nat, steps: nat, options: Options): Outcome
    requires idx <= |fields| && steps <= SPLIT_LIMIT
    decreases SPLIT_LIMIT - steps, |fields| - idx
  {
    if idx == |fields| then NoCommand
    else
      var arg := fields[idx];
      if arg == "--" then Operands(fields[idx + 1..], options)
      else if arg == "-" || !("-" <= arg) then Operands(fields[idx..], options)
      else
        var a := OptionAction(world, arg, fields, idx + 1, options);
        match a.action
        case Continue => Process(world, fields, a.idx, steps, a.options)
        case NoCommandAction => NoCommand
        case InvalidAction => NoCommand
        case Resplit(split) =>
          if steps == SPLIT_LIMIT then TooManySplits
          else
            match Split(world.env, split)
            case None => NoCommand
            case Some(expanded) => Process(world, expanded + fields[a.idx..], 0, steps + 1, a.options)
  }

  /** The loop ends in every environment: a split uses up one of 32 steps, and between two of them
      the index only grows, and never beyond the fields. */
  method EnvShebangCommandFields(world: World, start: seq<string>, initial: Options) returns (r: Outcome)
    ensures r == Process(world, start, 0, 0, initial)
  {
    hide OptionAction, SplitFrom;
    var fields, options, idx, splitSteps := start, initial, 0, 0;
    while idx < |fields|
      invariant 0 <= idx <= |fields| && 0 <= splitSteps <= SPLIT_LIMIT
      invariant Process(world, start, 0, 0, initial) == Process(world, fields, idx, splitSteps, options)
      decreases SPLIT_LIMIT - splitSteps, |fields| - idx
    {
      var arg := fields[idx];
      idx := idx + 1;
      if arg == "--" || arg == "-" {
        var operandsStart := if arg == "-" then idx - 1 else idx;
        return Operands(fields[operandsStart..], options);
      }
      if "-" <= arg {
        var acted := OptionAction(world, arg, fields, idx, options);
        idx, options := acted.idx, acted.options;
        match acted.action
        case Continue =>
          continue;
        case NoCommandAction =>
          return NoCommand;
        case InvalidAction =>
          return NoCommand;
        case Resplit(split) =>
          splitSteps := splitSteps + 1;
          if splitSteps > SPLIT_LIMIT {
            return TooManySplits;
          }
          var expanded := SplitEnvSplitString(world.env, split);
          if expanded.None? {
            return NoCommand;
          }
          fields := expanded.value + fields[idx..];
          idx := 0;
          continue;
      }
      return Operands(fields[idx - 1..], options);
    }
    r := NoCommand;
  }

  // ---------------------------------------------------------------- when the limit is reached

  lemma TotalFrom(fields: seq<string>, i: nat)
    requires i < |fields|
    ensures Total(fields[i..]) == |fields[i]| + Total(fields[i + 1..])
  {
    assert fields[i..][1..] == fields[i + 1..];
  }

  lemma {:induction false} TotalDrops(fields: seq<string>, i: nat, j: nat)
    requires i <= j <= |fields|
    ensures Total(fields[j..]) <= Total(fields[i..])
    decreases j - i
  {
    if i < j {
      TotalFrom(fields, i);
      TotalDrops(fields, i + 1, j);
    }
  }

  /** How many characters fields have, and one more if there are several. */
  function Size(fields: seq<string>): nat {
    Total(fields) + if |fields| > 1 then 1 else 0
  }

  /** What an option asks to be split, with the fields behind it, against what it was read from. */
  predicate SplitIsShorter(a: Acted, arg: string, fields: seq<string>, idx: nat)
    requires idx <= a.idx <= |fields|
  {
    a.action.Resplit? ==>
      && |a.action.split| + Total(fields[a.idx..]) + 2 <= |arg| + Total(fields[idx..])
      && (a.idx == idx ==> |arg| >= 3)
      && (a.idx > idx ==> |arg| >= 2)
  }

  lemma ClassifiedValueIsShorter(arg: string)
    ensures var only := ClassifyLongOption(arg);
      only.Some? && only.value.1.Some? ==> |only.value.1.value| + 3 <= |arg|
    ensures ClassifyLongOption(arg).Some? ==> |arg| >= 2
  {
    hide OnlyMatch, IndexOf;
  }

  lemma LongSplitShrinks(world: World, arg: string, fields: seq<string>, idx: nat, options: Options)
    requires idx <= |fields|
    ensures SplitIsShorter(LongOptionAction(world, arg, fields, idx, options), arg, fields, idx)
  {
    hide ClassifyLongOption;
    ClassifiedValueIsShorter(arg);
    if idx < |fields| {
      TotalFrom(fields, idx);
    }
  }

  lemma {:induction false} ShortSplitShrinks(arg: string, at: nat, fields: seq<string>, idx: nat, options: Options)
    requires 1 <= at <= |arg| && idx <= |fields|
    ensures SplitIsShorter(ShortOptionAction(arg, at, fields, idx, options), arg, fields, idx)
    decreases |arg| - at
  {
    if at < |arg| {
      if arg[at] == 'i' {
        ShortSplitShrinks(arg, at + 1, fields, idx, options.(ignoreEnvironment := true));
      } else if arg[at] == 'v' {
        ShortSplitShrinks(arg, at + 1, fields, idx, options);
      } else if idx < |fields| {
        TotalFrom(fields, idx);
      }
    }
  }

  lemma SplitCostsTwo(world: World, fields: seq<string>, idx: nat, options: Options)
    requires idx < |fields| && "-" <= fields[idx]
    ensures var a := OptionAction(world, fields[idx], fields, idx + 1, options);
      && Size(fields[a.idx..]) <= Size(fields[idx..])
      && (a.action.Resplit? ==>
        && |a.action.split| + Total(fields[a.idx..]) + 2 <= Total(fields[idx..])
        && Size(fields[idx..]) >= 3)
  {
    TotalFrom(fields, idx);
    TotalDrops(fields, idx, OptionAction(world, fields[idx], fields, idx + 1, options).idx);
    if "--" <= fields[idx] {
      LongSplitShrinks(world, fields[idx], fields, idx + 1, options);
    } else {
      ShortSplitShrinks(fields[idx], 1, fields, idx + 1, options);
    }
  }

  /** What is split again was written in the option or is one of the fields behind it. */
  predicate IsPart(text: string, arg: string, fields: seq<string>) {
    (forall c <- text :: c in arg) || text in fields
  }

  lemma LongSplitIsPart(world: World, arg: string, fields: seq<string>, idx: nat, options: Options)
    requires idx <= |fields|
    ensures var a := LongOptionAction(world, arg, fields, idx, options);
      a.action.Resplit? ==> IsPart(a.action.split, arg, fields)
  {
  }

  lemma {:induction false} ShortSplitIsPart(arg: string, at: nat, fields: seq<string>, idx: nat, options: Options)
    requires 1 <= at <= |arg| && idx <= |fields|
    ensures var a := ShortOptionAction(arg, at, fields, idx, options);
      a.action.Resplit? ==> IsPart(a.action.split, arg, fields)
    decreases |arg| - at
  {
    if at < |arg| {
      if arg[at] == 'i' {
        ShortSplitIsPart(arg, at + 1, fields, idx, options.(ignoreEnvironment := true));
      } else if arg[at] == 'v' {
        ShortSplitIsPart(arg, at + 1, fields, idx, options);
      }
    }
  }

  lemma SplitIsOver(alphabet: set<char>, world: World, fields: seq<string>, idx: nat, options: Options)
    requires AllOver(alphabet, fields) && idx < |fields| && "-" <= fields[idx]
    ensures var a := OptionAction(world, fields[idx], fields, idx + 1, options);
      a.action.Resplit? ==> Over(alphabet, a.action.split)
  {
    assert fields[idx] in fields;
    if "--" <= fields[idx] {
      LongSplitIsPart(world, fields[idx], fields, idx + 1, options);
    } else {
      ShortSplitIsPart(fields[idx], 1, fields, idx + 1, options);
    }
  }

  lemma AllOverJoins(alphabet: set<char>, expanded: seq<string>, fields: seq<string>, idx: nat)
    requires AllOver(alphabet, expanded) && AllOver(alphabet, fields) && idx <= |fields|
    ensures AllOver(alphabet, expanded + fields[idx..])
  {
    forall field <- expanded + fields[idx..]
      ensures Over(alphabet, field)
    {
      assert field in expanded || field in fields;
    }
  }

  /** The fields that a split puts in place of an option are two characters shorter. */
  lemma SizeDrops(expanded: seq<string>, split: string, fields: seq<string>, idx: nat, next: nat)
    requires Total(expanded) + |expanded| <= |split| + 1
    requires idx < next <= |fields| && |split| + Total(fields[next..]) + 2 <= Total(fields[idx..])
    ensures Size(expanded + fields[next..]) + 2 <= Size(fields[idx..])
  {
    TotalSplits(expanded, fields[next..]);
  }

  /** Every split takes two characters, so that fields of fewer than 66 characters in all, or a
      single field of 66, never reach the limit, unless a variable that can be named with their
      characters is longer than the reference to it or brings in other characters. */
  lemma {:induction false} ShortFieldsNeverReachTheLimit(alphabet: set<char>, world: World, fields: seq<string>,
      idx: nat, steps: nat, options: Options)
    requires Tame(world.env, alphabet) && AllOver(alphabet, fields) && idx <= |fields| && steps <= SPLIT_LIMIT
    requires Size(fields[idx..]) < 2 * (SPLIT_LIMIT - steps) + 3
    ensures Process(world, fields, idx, steps, options) != TooManySplits
    decreases SPLIT_LIMIT - steps, |fields| - idx
  {
    hide OptionAction, SplitFrom;
    if idx < |fields| && "-" <= fields[idx] && fields[idx] != "--" && fields[idx] != "-" {
      SplitCostsTwo(world, fields, idx, options);
      var a := OptionAction(world, fields[idx], fields, idx + 1, options);
      if a.action.Continue? {
        ShortFieldsNeverReachTheLimit(alphabet, world, fields, a.idx, steps, a.options);
      } else if a.action.Resplit? && Split(world.env, a.action.split).Some? {
        var expanded := Split(world.env, a.action.split).value;
        SplitIsOver(alphabet, world, fields, idx, options);
        SplitShrinks(world.env, alphabet, a.action.split, expanded);
        AllOverJoins(alphabet, expanded, fields, a.idx);
        SizeDrops(expanded, a.action.split, fields, idx, a.idx);
        assert (expanded + fields[a.idx..])[0..] == expanded + fields[a.idx..];
        ShortFieldsNeverReachTheLimit(alphabet, world, expanded + fields[a.idx..], 0, steps + 1, a.options);
      }
    }
  }

  /** In every environment, where the fields have no `$`. */
  lemma WithoutReferencesNeverReachTheLimit(world: World, fields: seq<string>, options: Options)
    requires (forall field <- fields :: '$' !in field) && Size(fields) < 67
    ensures Process(world, fields, 0, 0, options) != TooManySplits
  {
    var alphabet := set field, c | field in fields && c in field :: c;
    assert fields[0..] == fields;
    ShortFieldsNeverReachTheLimit(alphabet, world, fields, 0, 0, options);
  }

  // ---------------------------------------------------------------- the limit is exact

  function Splits(n: nat, tail: string): string {
    if n == 0 then tail else "-S" + Splits(n - 1, tail)
  }

  /** Two fields, the second one empty, or a single one. */
  function SplitFields(n: nat, single: bool): seq<string> {
    if single then [Splits(n, "x")] else [Splits(n, ""), ""]
  }

  predicate IsPlain(text: string) {
    forall c <- text :: c == '-' || c == 'S' || c == 'x'
  }

  lemma {:induction false} SplitsAreWritten(n: nat, tail: string)
    requires IsPlain(tail)
    ensures |Splits(n, tail)| == 2 * n + |tail| && IsPlain(Splits(n, tail))
  {
    if n > 0 {
      SplitsAreWritten(n - 1, tail);
    }
  }

  lemma {:induction false} PlainRuns(env: Environment, raw: string, i: nat, s: Splitter)
    requires IsPlain(raw) && i <= |raw| && s.quote.None? && !s.escaped
    ensures SplitFrom(env, raw, i, s)
         == Finish(s.(current := s.current + raw[i..], inField := s.inField || i < |raw|))
    decreases |raw| - i
  {
    if i == |raw| {
      assert s.current + raw[i..] == s.current;
    } else {
      assert raw[i] in raw;
      PlainRuns(env, raw, i + 1, s.Push([raw[i]]));
      assert s.current + [raw[i]] + raw[i + 1..] == s.current + raw[i..];
    }
  }

  lemma PlainSplits(env: Environment, raw: string)
    requires raw != "" && IsPlain(raw)
    ensures Split(env, raw) == Some([raw])
  {
    PlainRuns(env, raw, 0, START);
    assert "" + raw[0..] == raw;
    assert START.fields + [raw] == [raw];
  }

  lemma SplitFieldsSize(n: nat, single: bool)
    ensures Size(SplitFields(n, single)) == 2 * n + 1
    ensures Total(SplitFields(n, single)) == if single then 2 * n + 1 else 2 * n
  {
    SplitsAreWritten(n, "x");
    SplitsAreWritten(n, "");
    TotalOfOne(Splits(n, "x"));
    TotalOfOne("");
    assert [Splits(n, ""), ""][1..] == [""];
  }

  lemma SplitsAct(world: World, n: nat, single: bool, options: Options)
    requires n >= 1
    ensures var fields := SplitFields(n, single);
      var rest := SplitFields(n - 1, single)[0];
      && "-" <= fields[0] && fields[0] != "--" && fields[0] != "-"
      && OptionAction(world, fields[0], fields, 1, options)
         == if rest == "" then Acted(Resplit(""), 2, options) else Acted(Resplit(rest), 1, options)
  {
    var tail := if single then "x" else "";
    SplitsAreWritten(n, tail);
    SplitsAreWritten(n - 1, tail);
    var arg := Splits(n, tail);
    assert arg[0] == '-' && arg[1] == 'S' && !("--" <= arg);
    assert arg[2..] == Splits(n - 1, tail);
  }

  lemma ProcessResplits(world: World, fields: seq<string>, steps: nat, options: Options, split: string, idx: nat,
      expanded: seq<string>)
    requires steps < SPLIT_LIMIT && fields != [] && idx <= |fields|
    requires "-" <= fields[0] && fields[0] != "--" && fields[0] != "-"
    requires OptionAction(world, fields[0], fields, 1, options) == Acted(Resplit(split), idx, options)
    requires Split(world.env, split) == Some(expanded)
    ensures Process(world, fields, 0, steps, options)
         == Process(world, expanded + fields[idx..], 0, steps + 1, options)
  {
  }

  lemma SplitsSplit(world: World, n: nat, single: bool, steps: nat, options: Options)
    requires n > 1 && steps < SPLIT_LIMIT
    ensures Process(world, SplitFields(n, single), 0, steps, options)
         == Process(world, SplitFields(n - 1, single), 0, steps + 1, options)
  {
    hide OptionAction, Process, SplitFrom;
    var tail := if single then "x" else "";
    var rest := Splits(n - 1, tail);
    SplitsAreWritten(n - 1, tail);
    SplitsAct(world, n, single, options);
    PlainSplits(world.env, rest);
    ProcessResplits(world, SplitFields(n, single), steps, options, rest, 1, [rest]);
    assert [rest] + SplitFields(n, single)[1..] == SplitFields(n - 1, single) by {
      if single {
        assert SplitFields(n, single)[1..] == [];
      } else {
        assert SplitFields(n, single)[1..] == [""];
      }
    }
  }

  /** Two fields of 66 characters in all, or one of 67, that reach the limit in every environment:
      the bounds above are the best possible. */
  lemma {:induction false} LimitIsExact(world: World, n: nat, single: bool, options: Options)
    requires 1 <= n <= SPLIT_LIMIT + 1
    ensures Process(world, SplitFields(n, single), 0, SPLIT_LIMIT + 1 - n, options) == TooManySplits
    ensures Total(SplitFields(n, single)) == if single then 2 * n + 1 else 2 * n
    ensures Size(SplitFields(n, single)) == 2 * n + 1
  {
    SplitFieldsSize(n, single);
    if n == 1 {
      SplitsAct(world, n, single, options);
    } else {
      SplitsSplit(world, n, single, SPLIT_LIMIT + 1 - n, options);
      LimitIsExact(world, n - 1, single, options);
    }
  }

  // ---------------------------------------------------------------- a variable that names itself

  lemma VariableSplits(env: Environment, name: string)
    requires IsValidEnvName(name) && name in env && env[name].Unicode?
    ensures Split(env, "${" + name + "}") == Some([env[name].text])
  {
    var raw := "${" + name + "}";
    var end := 2 + |name|;
    FindsFirst(raw, 2, '}', end);
    assert raw[2..end] == name;
    assert "" + env[name].text == env[name].text;
    TurnRuns(env, raw, 0, START, end + 1, START.Push(env[name].text));
    assert START.fields + [env[name].text] == [env[name].text];
  }

  lemma SelfReferenceActs(world: World, name: string, options: Options)
    ensures var arg := "-S${" + name + "}";
      && "-" <= arg && arg != "--" && arg != "-"
      && OptionAction(world, arg, [arg], 1, options) == Acted(Resplit("${" + name + "}"), 1, options)
  {
    var arg := "-S${" + name + "}";
    assert arg[2..] == "${" + name + "}";
    assert arg[1] == 'S' && !("--" <= arg);
  }

  /** A variable that expands to the same -S argument is cut off by the limit. */
  lemma {:induction false} SelfReferenceReachesTheLimit(world: World, name: string, steps: nat, options: Options)
    requires IsValidEnvName(name) && steps <= SPLIT_LIMIT
    requires name in world.env && world.env[name] == Unicode("-S${" + name + "}")
    ensures Process(world, ["-S${" + name + "}"], 0, steps, options) == TooManySplits
    decreases SPLIT_LIMIT - steps
  {
    hide OptionAction, SplitFrom;
    var arg := "-S${" + name + "}";
    SelfReferenceActs(world, name, options);
    VariableSplits(world.env, name);
    if steps < SPLIT_LIMIT {
      assert [arg] + [arg][1..] == [arg];
      ProcessResplits(world, [arg], steps, options, "${" + name + "}", 1, [arg]);
      SelfReferenceReachesTheLimit(world, name, steps + 1, options);
    }
  }
}
