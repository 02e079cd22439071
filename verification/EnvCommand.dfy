/** What an `env` shebang line runs (src/platform/unix/mod.rs, env_shebang_command): its argument is
    split into fields, the options are taken, and what is left is a lone "-", assignments and the
    command. */
module EnvCommand {
  import opened Results
  import opened Text
  import opened Expansion
  import opened EnvSplit
  import opened EnvOptions
  import EnvLanguage

  /** A command with the context it runs in, and whether the search for it may end elsewhere there. */
  datatype Command = Command(name: string, env: Environment, cwd: Option<string>, searchModified: bool)

  datatype Answer = Runs(command: Option<Command>) | TooManySteps

  const NO_OPTIONS: Options := Options(false, [], None, false)

  // ---------------------------------------------------------------- assignments

  predicate IsAssignment(arg: string) {
    '=' in arg
  }

  predicate AreAssignments(args: seq<string>) {
    forall arg <- args :: IsAssignment(arg)
  }

  function AssignedName(arg: string): string {
    arg[..IndexOf(arg, 0, '=')]
  }

  function AssignedValue(arg: string): string
    requires IsAssignment(arg)
  {
    IndexFinds(arg, 0, '=');
    assert arg[0..] == arg;
    arg[IndexOf(arg, 0, '=') + 1..]
  }

  /** The environment after the first `k` operands. */
  function Assign(env: Environment, operands: seq<string>, k: nat): Environment
    requires k <= |operands| && AreAssignments(operands[..k])
  {
    if k == 0 then env
    else
      var arg := operands[..k][k - 1];
      assert operands[..k - 1] == operands[..k][..k - 1];
      Assign(env, operands, k - 1)[AssignedName(arg) := Unicode(AssignedValue(arg))]
  }

  /** Any text with an equals sign is a name and a value, split at the first one. */
  lemma AssignmentSplits(name: string, value: string)
    requires '=' !in name
    ensures var arg := name + "=" + value;
      IsAssignment(arg) && AssignedName(arg) == name && AssignedValue(arg) == value
  {
    var arg := name + "=" + value;
    assert arg[|name|] == '=' && forall k :: 0 <= k < |name| ==> arg[k] == name[k] && name[k] in name;
    FindsFirst(arg, 0, '=', |name|);
    assert arg[..|name|] == name && arg[|name| + 1..] == value;
  }

  // ---------------------------------------------------------------- operands

  predicate BeginsWithDash(operands: seq<string>) {
    operands != [] && operands[0] == "-"
  }

  /** A lone "-" clears the environment, as -i does. */
  predicate IsCleared(operands: seq<string>, options: Options) {
    options.ignoreEnvironment || BeginsWithDash(operands)
  }

  function AfterDash(operands: seq<string>): seq<string> {
    if BeginsWithDash(operands) then operands[1..] else operands
  }

  predicate IsValidUnsetName(name: string) {
    name != "" && '=' !in name
  }

  /** An environment that is cleared needs no names removed from it, so that they may be anything. */
  predicate UnsetsFail(operands: seq<string>, options: Options) {
    !IsCleared(operands, options) && exists name <- options.unsetNames :: !IsValidUnsetName(name)
  }

  function Unset(env: Environment, names: seq<string>): Environment {
    env - (set name | name in names)
  }

  function Base(world: World, operands: seq<string>, options: Options): Environment {
    if IsCleared(operands, options) then map[] else Unset(world.env, options.unsetNames)
  }

  /** The first operand that is no assignment, or the end. */
  function FirstCommand(operands: seq<string>): (k: nat)
    ensures k <= |operands| && AreAssignments(operands[..k])
    ensures k < |operands| ==> !IsAssignment(operands[k])
  {
    if operands == [] || !IsAssignment(operands[0]) then 0
    else
      var k := 1 + FirstCommand(operands[1..]);
      assert operands[..k] == [operands[0]] + operands[1..][..k - 1];
      k
  }

  predicate SameSearch(world: World, env: Environment, cwd: Option<string>) {
    && cwd == world.cwd
    && ("PATH" in env <==> "PATH" in world.env)
    && ("PATH" in env ==> env["PATH"] == world.env["PATH"])
  }

  function NewCommand(world: World, name: string, env: Environment, cwd: Option<string>): Command {
    Command(name, env, cwd, !SameSearch(world, env, cwd))
  }

  /** Only the last -C counts, and it starts from the inherited directory. */
  function FinishCommand(world: World, name: string, env: Environment, chdir: Option<string>): Option<Command> {
    match chdir
    case None => Some(NewCommand(world, name, env, world.cwd))
    case Some(dir) =>
      match if dir == "" then None else world.directory(dir)
      case None => None
      case Some(cwd) => Some(NewCommand(world, name, env, Some(cwd)))
  }

  /** The command that the operands name, or none. */
  function OperandsCommand(world: World, operands: seq<string>, options: Options): Option<Command> {
    var rest := AfterDash(operands);
    var k := FirstCommand(rest);
    if options.invalidSignalDisposition || UnsetsFail(operands, options) || k == |rest| then None
    else FinishCommand(world, rest[k], Assign(Base(world, operands, options), rest, k), options.chdir)
  }

  lemma IsFirstCommand(operands: seq<string>, k: nat)
    requires k <= |operands| && AreAssignments(operands[..k])
    requires k < |operands| ==> !IsAssignment(operands[k])
    ensures FirstCommand(operands) == k
  {
  }

  method EnvShebangCommandOperands(world: World, fields: seq<string>, options: Options) returns (r: Option<Command>)
    ensures r == OperandsCommand(world, fields, options)
  {
    if options.invalidSignalDisposition {
      return None;
    }
    var ignoreEnvironment, operands := options.ignoreEnvironment, fields;
    if fields != [] && fields[0] == "-" {
      ignoreEnvironment, operands := true, fields[1..];
    }
    var environment: Environment := map[];
    if !ignoreEnvironment {
      var remaining := RemoveUnset(world.env, options.unsetNames);
      if remaining.None? {
        return None;
      }
      environment := remaining.value;
    }
    assert environment == Base(world, fields, options) && operands == AfterDash(fields);
    r := RunOperands(world, operands, options, environment);
  }

  method RemoveUnset(env: Environment, names: seq<string>) returns (r: Option<Environment>)
    ensures r == if exists name <- names :: !IsValidUnsetName(name) then None else Some(Unset(env, names))
  {
    var environment, k := env, 0;
    while k < |names|
      invariant 0 <= k <= |names| && environment == Unset(env, names[..k])
      invariant forall name <- names[..k] :: IsValidUnsetName(name)
    {
      var name := names[k];
      if !IsValidUnsetName(name) {
        return None;
      }
      environment := environment - {name};
      k := k + 1;
      assert names[..k] == names[..k - 1] + [name];
    }
    assert names[..k] == names;
    r := Some(environment);
  }

  method RunOperands(world: World, operands: seq<string>, options: Options, base: Environment)
    returns (r: Option<Command>)
    ensures var k := FirstCommand(operands);
      r == if k == |operands| then None
           else FinishCommand(world, operands[k], Assign(base, operands, k), options.chdir)
  {
    var environment, k := base, 0;
    while k < |operands|
      invariant 0 <= k <= |operands| && AreAssignments(operands[..k])
      invariant environment == Assign(base, operands, k)
    {
      var arg := operands[k];
      if '=' !in arg {
        IsFirstCommand(operands, k);
        return FinishCommand(world, arg, environment, options.chdir);
      }
      environment := environment[AssignedName(arg) := Unicode(AssignedValue(arg))];
      k := k + 1;
      assert operands[..k] == operands[..k - 1] + [arg];
    }
    IsFirstCommand(operands, k);
    r := None;
  }

  // ---------------------------------------------------------------- what the operands mean

  /** One of the operands from `j` up to `k` assigns to the name. */
  predicate Assigns(operands: seq<string>, j: nat, k: nat, name: string)
    requires k <= |operands|
  {
    exists i :: j <= i < k && AssignedName(operands[i]) == name
  }

  lemma {:induction false} OthersKeepTheirValues(env: Environment, operands: seq<string>, k: nat, name: string)
    requires k <= |operands| && AreAssignments(operands[..k]) && !Assigns(operands, 0, k, name)
    ensures name in Assign(env, operands, k) <==> name in env
    ensures name in env ==> Assign(env, operands, k)[name] == env[name]
    decreases k
  {
    if k > 0 {
      assert operands[..k - 1] == operands[..k][..k - 1];
      OthersKeepTheirValues(env, operands, k - 1, name);
    }
  }

  /** A name has the value of the last assignment to it. */
  lemma {:induction false} LastAssignmentWins(env: Environment, operands: seq<string>, k: nat, j: nat)
    requires j < k <= |operands| && AreAssignments(operands[..k])
    requires !Assigns(operands, j + 1, k, AssignedName(operands[j]))
    ensures operands[j] in operands[..k]
    ensures AssignedName(operands[j]) in Assign(env, operands, k)
    ensures Assign(env, operands, k)[AssignedName(operands[j])] == Unicode(AssignedValue(operands[j]))
    decreases k
  {
    assert operands[..k][j] == operands[j];
    assert operands[..k - 1] == operands[..k][..k - 1];
    if j < k - 1 {
      LastAssignmentWins(env, operands, k - 1, j);
    }
  }

  /** The search for the command ends where it would have without env, unless there is a -C, the
      environment is cleared, or PATH is unset or assigned. */
  lemma SearchIsInherited(world: World, operands: seq<string>, options: Options)
    requires OperandsCommand(world, operands, options).Some?
    requires options.chdir.None? && !IsCleared(operands, options) && "PATH" !in options.unsetNames
    requires !Assigns(operands, 0, FirstCommand(operands), "PATH")
    ensures !OperandsCommand(world, operands, options).value.searchModified
  {
    OthersKeepTheirValues(Base(world, operands, options), operands, FirstCommand(operands), "PATH");
  }

  // ---------------------------------------------------------------- the argument

  /** The letters from `at` on, if they end in S: what follows it, and whether i is among them. */
  function ShortSplitString(arg: string, at: nat, ignoreEnvironment: bool): Option<(string, bool)>
    requires at <= |arg|
    decreases |arg| - at
  {
    if at == |arg| then None
    else if arg[at] == 'S' then Some((arg[at + 1..], ignoreEnvironment))
    else if arg[at] == 'i' then ShortSplitString(arg, at + 1, true)
    else if arg[at] == 'v' then ShortSplitString(arg, at + 1, ignoreEnvironment)
    else None
  }

  function SplitArgument(arg: string): Option<(string, bool)> {
    var long := ClassifyLongOption(arg);
    if long.Some? && long.value.0.SplitString? && long.value.1.Some? then Some((long.value.1.value, false))
    else if !("-" <= arg) || "--" <= arg then None
    else ShortSplitString(arg, 1, false)
  }

  method EnvSplitString(arg: string) returns (r: Option<(string, bool)>)
    ensures r == SplitArgument(arg)
  {
    var long := ClassifyLongOption(arg);
    if long.Some? && long.value.0.SplitString? && long.value.1.Some? {
      return Some((long.value.1.value, false));
    }
    if !("-" <= arg) || "--" <= arg {
      return None;
    }
    var idx, ignoreEnvironment := 1, false;
    while idx < |arg|
      invariant 1 <= idx <= |arg|
      invariant SplitArgument(arg) == ShortSplitString(arg, idx, ignoreEnvironment)
    {
      var opt := arg[idx];
      idx := idx + 1;
      match opt
      case 'S' =>
        return Some((arg[idx..], ignoreEnvironment));
      case 'i' =>
        ignoreEnvironment := true;
      case 'v' =>
      case _ =>
        return None;
    }
    r := None;
  }

  /** What the argument leads to before the operands are looked at. */
  function ArgumentOutcome(world: World, argument: string): Outcome {
    match SplitArgument(argument)
    case None => Process(world, [argument], 0, 0, NO_OPTIONS)
    case Some((split, ignoreEnvironment)) =>
      match Split(world.env, split)
      case None => NoCommand
      case Some(fields) => Process(world, fields, 0, 0, NO_OPTIONS.(ignoreEnvironment := ignoreEnvironment))
  }

  function AnswerOf(world: World, outcome: Outcome): Answer {
    match outcome
    case Operands(fields, options) => Runs(OperandsCommand(world, fields, options))
    case NoCommand => Runs(None)
    case TooManySplits => TooManySteps
  }

  method EnvShebangCommand(world: World, argument: string) returns (r: Answer)
    ensures r == AnswerOf(world, ArgumentOutcome(world, argument))
  {
    var fields, options := [argument], NO_OPTIONS;
    var split := EnvSplitString(argument);
    if split.Some? {
      var expanded := SplitEnvSplitString(world.env, split.value.0);
      if expanded.None? {
        return Runs(None);
      }
      fields, options := expanded.value, NO_OPTIONS.(ignoreEnvironment := split.value.1);
    }
    var outcome := EnvShebangCommandFields(world, fields, options);
    match outcome
    case Operands(operands, collected) =>
      var command := EnvShebangCommandOperands(world, operands, collected);
      r := Runs(command);
    case NoCommand =>
      r := Runs(None);
    case TooManySplits =>
      r := TooManySteps;
  }

  // ---------------------------------------------------------------- the argument is a field

  /** How many splits went before matters only for the limit. */
  lemma {:induction false} StepsOnlyLimit(world: World, fields: seq<string>, idx: nat, steps: nat, options: Options)
    requires idx <= |fields| && steps < SPLIT_LIMIT
    requires Process(world, fields, idx, steps + 1, options) != TooManySplits
    ensures Process(world, fields, idx, steps, options) == Process(world, fields, idx, steps + 1, options)
    decreases SPLIT_LIMIT - steps, |fields| - idx
  {
    hide OptionAction, SplitFrom;
    if idx < |fields| && "-" <= fields[idx] && fields[idx] != "--" && fields[idx] != "-" {
      var a := OptionAction(world, fields[idx], fields, idx + 1, options);
      if a.action.Continue? {
        StepsOnlyLimit(world, fields, a.idx, steps, a.options);
      } else if a.action.Resplit? && Split(world.env, a.action.split).Some? {
        var expanded := Split(world.env, a.action.split).value;
        StepsOnlyLimit(world, expanded + fields[a.idx..], 0, steps + 1, a.options);
      }
    }
  }

  /** The letters of a short option that is the only field. */
  lemma {:induction false} OnlyShortField(arg: string, at: nat, options: Options)
    requires 1 <= at <= |arg|
    ensures var a := ShortOptionAction(arg, at, [arg], 1, options);
      match ShortSplitString(arg, at, options.ignoreEnvironment)
      case None => !a.action.Resplit?
      case Some((split, ignoreEnvironment)) =>
        if split == "" then a.action.Continue?
        else a == Acted(Resplit(split), 1, options.(ignoreEnvironment := ignoreEnvironment))
    decreases |arg| - at
  {
    if at < |arg| {
      if arg[at] == 'i' {
        OnlyShortField(arg, at + 1, options.(ignoreEnvironment := true));
      } else if arg[at] == 'v' {
        OnlyShortField(arg, at + 1, options);
      }
    }
  }

  lemma SplitArgumentActs(world: World, arg: string)
    ensures match SplitArgument(arg)
      case None => "-" <= arg ==> !OptionAction(world, arg, [arg], 1, NO_OPTIONS).action.Resplit?
      case Some((split, ignoreEnvironment)) =>
        && "-" <= arg && arg != "-" && arg != "--"
        && var a := OptionAction(world, arg, [arg], 1, NO_OPTIONS);
           || a == Acted(Resplit(split), 1, NO_OPTIONS.(ignoreEnvironment := ignoreEnvironment))
           || (split == "" && a.action.Continue?)
  {
    if "-" <= arg && !("--" <= arg) {
      OnlyShortField(arg, 1, NO_OPTIONS);
    }
  }

  /** Splitting the argument first is what taking it as the only field would come to, but for one
      split more that it is allowed. */
  lemma ArgumentIsAField(world: World, argument: string)
    requires Process(world, [argument], 0, 0, NO_OPTIONS) != TooManySplits
    ensures ArgumentOutcome(world, argument) == Process(world, [argument], 0, 0, NO_OPTIONS)
  {
    if SplitArgument(argument).Some? {
      var (split, ignoreEnvironment) := SplitArgument(argument).value;
      var options := NO_OPTIONS.(ignoreEnvironment := ignoreEnvironment);
      SplitArgumentActs(world, argument);
      if split != "" && Split(world.env, split).Some? {
        var fields := Split(world.env, split).value;
        assert fields + [argument][1..] == fields;
        StepsOnlyLimit(world, fields, 0, 0, options);
      }
    }
  }

  // ---------------------------------------------------------------- short arguments

  lemma {:induction false} ShortSplitIsShorter(arg: string, at: nat, ignoreEnvironment: bool)
    requires 1 <= at <= |arg|
    ensures match ShortSplitString(arg, at, ignoreEnvironment)
      case None => true
      case Some((split, _)) => |split| + 2 <= |arg| && forall c <- split :: c in arg
    decreases |arg| - at
  {
    if at < |arg| {
      if arg[at] == 'i' {
        ShortSplitIsShorter(arg, at + 1, true);
      } else if arg[at] == 'v' {
        ShortSplitIsShorter(arg, at + 1, ignoreEnvironment);
      }
    }
  }

  lemma SplitArgumentIsShorter(arg: string)
    ensures match SplitArgument(arg)
      case None => true
      case Some((split, _)) => |split| + 2 <= |arg| && forall c <- split :: c in arg
  {
    if "-" <= arg && !("--" <= arg) {
      ShortSplitIsShorter(arg, 1, false);
    }
  }

  /** No argument of fewer than 69 characters reaches the limit, unless a variable that can be named
      with its characters is longer than the reference to it or brings in other characters. */
  lemma ShortArgumentsNeverReachTheLimit(alphabet: set<char>, world: World, argument: string)
    requires Tame(world.env, alphabet) && Over(alphabet, argument) && |argument| < 69
    ensures ArgumentOutcome(world, argument) != TooManySplits
  {
    SplitArgumentActs(world, argument);
    SplitArgumentIsShorter(argument);
    if SplitArgument(argument).Some? {
      var (split, ignoreEnvironment) := SplitArgument(argument).value;
      if Split(world.env, split).Some? {
        var fields := Split(world.env, split).value;
        SplitShrinks(world.env, alphabet, split, fields);
        assert fields[0..] == fields;
        ShortFieldsNeverReachTheLimit(alphabet, world, fields, 0, 0,
          NO_OPTIONS.(ignoreEnvironment := ignoreEnvironment));
      }
    } else if "-" <= argument {
      var a := OptionAction(world, argument, [argument], 1, NO_OPTIONS);
      assert Process(world, [argument], a.idx, 0, a.options) == NoCommand;
    }
  }

  /** One of 69 characters does, in every environment. */
  lemma ArgumentLimitIsExact(world: World)
    ensures |Splits(34, "x")| == 69 && ArgumentOutcome(world, Splits(34, "x")) == TooManySplits
  {
    var argument, split := Splits(SPLIT_LIMIT + 2, "x"), Splits(SPLIT_LIMIT + 1, "x");
    SplitsAreWritten(SPLIT_LIMIT + 2, "x");
    SplitsAreWritten(SPLIT_LIMIT + 1, "x");
    assert argument == "-S" + split;
    DashSSplits(split);
    PlainSplits(world.env, split);
    LimitIsExact(world, SPLIT_LIMIT + 1, true, NO_OPTIONS);
  }

  lemma DashSSplits(text: string)
    ensures SplitArgument("-S" + text) == Some((text, false))
  {
    assert ("-S" + text)[1] == 'S' && ("-S" + text)[2..] == text;
  }

  // ---------------------------------------------------------------- a quoted command line

  /** Behind -S, any words in quotation marks are the words of the command line: the first one is
      run in the inherited context, if it is neither an option nor an assignment. */
  lemma {:induction false} QuotedCommandRuns(world: World, items: seq<EnvLanguage.Item>, argument: string)
    requires items != [] && forall item <- items :: item.Valid()
    requires !("-" <= items[0].text) && !IsAssignment(items[0].text)
    requires argument == "-S" + EnvLanguage.Line(EnvLanguage.Quoting(items), EnvLanguage.Nothing)
    ensures ArgumentOutcome(world, argument) == Operands(EnvLanguage.Texts(items), NO_OPTIONS)
    ensures AnswerOf(world, ArgumentOutcome(world, argument))
         == Runs(Some(Command(items[0].text, world.env, world.cwd, false)))
  {
    var texts := EnvLanguage.Texts(items);
    DashSSplits(argument[2..]);
    EnvLanguage.QuotingRoundTrip(world.env, items);
    assert argument == "-S" + argument[2..];
    assert texts[0] == items[0].text && texts[0..] == texts;
    assert FirstCommand(texts) == 0;
    assert Unset(world.env, []) == world.env;
  }
}
