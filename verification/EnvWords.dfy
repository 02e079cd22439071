/** The language of the options of `env`: words with a printed form and a meaning. Every field that
    begins with a dash reads as one, and taking the options of printed words gives what they mean, in
    src/platform/unix/mod.rs by env_shebang_command_fields and the two functions of its actions. */
module EnvWords {
  import opened Results
  import opened Text
  import opened Expansion
  import opened EnvSplit
  import opened EnvOptions
  import opened EnvCommand
  import EnvLanguage

  // ---------------------------------------------------------------- words

  function LongName(option: LongOption): string {
    match option
    case Argv0 => "argv0"
    case BlockSignal => "block-signal"
    case Chdir => "chdir"
    case Debug => "debug"
    case DefaultSignal => "default-signal"
    case Help => "help"
    case IgnoreEnvironment => "ignore-environment"
    case IgnoreSignal => "ignore-signal"
    case ListSignalHandling => "list-signal-handling"
    case Null => "null"
    case SplitString => "split-string"
    case Unset => "unset"
    case Version => "version"
  }

  /** The beginning of that name and of no other. */
  ghost predicate Abbreviates(name: string, option: LongOption) {
    name != "" && name <= LongName(option) && forall other :: name <= LongName(other) ==> other == option
  }

  /** The letters of the options that take a value. */
  function Letter(option: LongOption): char {
    match option
    case SplitString => 'S'
    case Unset => 'u'
    case Chdir => 'C'
    case _ => 'a'
  }

  predicate TakesValue(option: LongOption) {
    option.SplitString? || option.Unset? || option.Chdir? || option.Argv0?
  }

  predicate AreFlags(letters: string) {
    forall c <- letters :: c == 'i' || c == 'v'
  }

  /** An option that takes a value is a letter behind flags, or a name. */
  datatype Spelling = Short(flags: string) | Long(name: string)

  datatype Word =
    | Flags(flags: string)
    | Valued(spelling: Spelling, option: LongOption, value: string, attached: bool)
    | Valueless(spelling: Spelling, option: LongOption)   // as the last field
    | LongFlag(name: string, option: LongOption, behind: Option<string>)
    | BadLetter(flags: string, letter: char, rest: string)
    | BadName(name: string, behind: Option<string>)

  ghost predicate IsSpelled(spelling: Spelling, option: LongOption) {
    TakesValue(option) && match spelling
      case Short(flags) => AreFlags(flags)
      case Long(name) => Abbreviates(name, option)
  }

  ghost predicate IsWord(w: Word) {
    match w
    case Flags(flags) => flags != "" && AreFlags(flags)
    case Valued(spelling, option, value, attached) =>
      IsSpelled(spelling, option) && (spelling.Short? && attached ==> value != "")
    case Valueless(spelling, option) => IsSpelled(spelling, option)
    case LongFlag(name, option, _) => Abbreviates(name, option) && !TakesValue(option)
    case BadLetter(flags, letter, _) => AreFlags(flags) && letter !in "ivuaCS" && (flags == "" ==> letter != '-')
    case BadName(name, value) =>
      && '=' !in name && (name != "" || value.Some?)
      && forall option :: !Abbreviates(name, option)
  }

  function Opening(spelling: Spelling, option: LongOption): string {
    match spelling
    case Short(flags) => "-" + flags + [Letter(option)]
    case Long(name) => "--" + name
  }

  function Suffix(value: Option<string>): string {
    match value case None => "" case Some(text) => "=" + text
  }

  function Printed(w: Word): (fields: seq<string>)
    ensures fields != []
  {
    match w
    case Flags(flags) => ["-" + flags]
    case Valued(spelling, option, value, true) =>
      [Opening(spelling, option) + (if spelling.Short? then "" else "=") + value]
    case Valued(spelling, option, value, false) => [Opening(spelling, option), value]
    case Valueless(spelling, option) => [Opening(spelling, option)]
    case LongFlag(name, _, value) => ["--" + name + Suffix(value)]
    case BadLetter(flags, letter, rest) => ["-" + flags + [letter] + rest]
    case BadName(name, value) => ["--" + name + Suffix(value)]
  }

  // ---------------------------------------------------------------- what they mean

  /** Options are gathered, or env runs no command, or a text is to be split in place of the word. */
  datatype Meaning = Gathers(options: Options) | Ends | Splits(text: string, options: Options)

  function WithFlags(flags: string, options: Options): Options {
    if 'i' in flags then options.(ignoreEnvironment := true) else options
  }

  function ValueMeaning(option: LongOption, value: string, options: Options): Meaning {
    match option
    case SplitString => Splits(value, options)
    case Unset => Gathers(options.(unsetNames := options.unsetNames + [value]))
    case Chdir => Gathers(options.(chdir := Some(value)))
    case _ => Gathers(options)
  }

  function SignalMeaning(world: World, signals: string, block: bool, options: Options): Meaning {
    match world.signals(signals, block)
    case UnknownSignal => Ends
    case UnchangeableSignal => Gathers(options.(invalidSignalDisposition := true))
    case FineSignals => Gathers(options)
  }

  function FlagMeaning(world: World, option: LongOption, value: Option<string>, options: Options): Meaning {
    match (option, value)
    case (IgnoreEnvironment, None) => Gathers(options.(ignoreEnvironment := true))
    case (Debug, None) => Gathers(options)
    case (ListSignalHandling, None) => Gathers(options)
    case (BlockSignal, None) => Gathers(options)
    case (DefaultSignal, None) => Gathers(options.(invalidSignalDisposition := false))
    case (IgnoreSignal, None) => Gathers(options.(invalidSignalDisposition := false))
    case (BlockSignal, Some(signals)) => SignalMeaning(world, signals, true, options)
    case (DefaultSignal, Some(signals)) => SignalMeaning(world, signals, false, options)
    case (IgnoreSignal, Some(signals)) => SignalMeaning(world, signals, false, options)
    case _ => Ends
  }

  function SpellingFlags(spelling: Spelling): string {
    match spelling case Short(flags) => flags case Long(_) => ""
  }

  function WordMeaning(world: World, w: Word, options: Options): Meaning {
    match w
    case Flags(flags) => Gathers(WithFlags(flags, options))
    case Valued(spelling, option, value, _) =>
      ValueMeaning(option, value, WithFlags(SpellingFlags(spelling), options))
    case Valueless(spelling, option) =>
      if option.Chdir? then Ends else Gathers(WithFlags(SpellingFlags(spelling), options))
    case LongFlag(_, option, value) => FlagMeaning(world, option, value, options)
    case BadLetter(_, _, _) => Ends
    case BadName(_, _) => Ends
  }

  /** What a meaning leads to, with the fields that come after. */
  function Follow(world: World, meaning: Meaning, rest: seq<string>, steps: nat): Outcome
    requires steps <= SPLIT_LIMIT
  {
    match meaning
    case Gathers(options) => Process(world, rest, 0, steps, options)
    case Ends => NoCommand
    case Splits(text, options) =>
      if steps == SPLIT_LIMIT then TooManySplits
      else
        match Split(world.env, text)
        case None => NoCommand
        case Some(expanded) => Process(world, expanded + rest, 0, steps + 1, options)
  }

  // ---------------------------------------------------------------- long names

  function Number(option: LongOption): (k: nat)
    ensures k < |ENV_LONG_OPTIONS| && ENV_LONG_OPTIONS[k] == (option, LongName(option))
  {
    match option
    case Argv0 => 0
    case BlockSignal => 1
    case Chdir => 2
    case Debug => 3
    case DefaultSignal => 4
    case Help => 5
    case IgnoreEnvironment => 6
    case IgnoreSignal => 7
    case ListSignalHandling => 8
    case Null => 9
    case SplitString => 10
    case Unset => 11
    case Version => 12
  }

  lemma TableHoldsTheNames(k: nat)
    requires k < |ENV_LONG_OPTIONS|
    ensures ENV_LONG_OPTIONS[k].1 == LongName(ENV_LONG_OPTIONS[k].0) && Number(ENV_LONG_OPTIONS[k].0) == k
  {
  }

  lemma {:induction false} MatchesFrom(name: string, from: nat)
    requires from <= |ENV_LONG_OPTIONS|
    ensures forall k :: from <= k < FirstMatch(name, from) ==> !(name <= ENV_LONG_OPTIONS[k].1)
    ensures FirstMatch(name, from) < |ENV_LONG_OPTIONS| ==> name <= ENV_LONG_OPTIONS[FirstMatch(name, from)].1
    decreases |ENV_LONG_OPTIONS| - from
  {
    if from < |ENV_LONG_OPTIONS| && !(name <= ENV_LONG_OPTIONS[from].1) {
      MatchesFrom(name, from + 1);
    }
  }

  /** The only option that a name abbreviates, if there is one. */
  ghost predicate IsClass(name: string, only: Option<LongOption>) {
    match only
    case Some(option) => Abbreviates(name, option)
    case None => forall option :: !Abbreviates(name, option)
  }

  lemma FirstMatchIsOne(name: string, k: nat)
    requires name != "" && k == FirstMatch(name, 0) < |ENV_LONG_OPTIONS|
    requires FirstMatch(name, k + 1) == |ENV_LONG_OPTIONS|
    ensures Abbreviates(name, ENV_LONG_OPTIONS[k].0)
  {
    hide FirstMatch, LongName;
    MatchesFrom(name, 0);
    MatchesFrom(name, k + 1);
    TableHoldsTheNames(k);
    forall other | name <= LongName(other)
      ensures other == ENV_LONG_OPTIONS[k].0
    {
      assert name <= ENV_LONG_OPTIONS[Number(other)].1;
    }
  }

  lemma FirstMatchIsNotOne(name: string, k: nat, option: LongOption)
    requires k == FirstMatch(name, 0)
    requires k < |ENV_LONG_OPTIONS| ==> FirstMatch(name, k + 1) < |ENV_LONG_OPTIONS|
    ensures !Abbreviates(name, option)
  {
    hide FirstMatch, LongName;
    MatchesFrom(name, 0);
    if k < |ENV_LONG_OPTIONS| {
      MatchesFrom(name, k + 1);
      TableHoldsTheNames(k);
      TableHoldsTheNames(FirstMatch(name, k + 1));
    } else {
      assert !(name <= ENV_LONG_OPTIONS[Number(option)].1);
    }
  }

  lemma NamesClassify(name: string)
    ensures IsClass(name, OnlyMatch(name))
  {
    if name == "" {
      return;
    }
    hide FirstMatch, Abbreviates;
    var k := FirstMatch(name, 0);
    if k < |ENV_LONG_OPTIONS| && FirstMatch(name, k + 1) == |ENV_LONG_OPTIONS| {
      FirstMatchIsOne(name, k);
    } else {
      forall option
        ensures !Abbreviates(name, option)
      {
        FirstMatchIsNotOne(name, k, option);
      }
    }
  }

  lemma ClassIsUnique(name: string, only: Option<LongOption>, other: Option<LongOption>)
    requires IsClass(name, only) && IsClass(name, other)
    ensures only == other
  {
  }

  lemma LongFieldClassifies(name: string, value: Option<string>)
    requires '=' !in name
    ensures ClassifyLongOption("--" + name + Suffix(value))
         == match OnlyMatch(name) case None => None case Some(option) => Some((option, value))
  {
    hide OnlyMatch, IndexOf;
    var body := name + Suffix(value);
    assert ("--" + name + Suffix(value))[2..] == body;
    FindsFirst(body, 0, '=', |name|);
    assert body[..|name|] == name;
    if value.Some? {
      assert body[|name| + 1..] == value.value;
    }
  }

  /** A long option in any spelling: its name, and what stands behind the equals sign. */
  lemma LongOptionReads(name: string, only: Option<LongOption>, value: Option<string>)
    requires '=' !in name && IsClass(name, only)
    ensures ClassifyLongOption("--" + name + Suffix(value))
         == match only case None => None case Some(option) => Some((option, value))
  {
    hide IsClass, OnlyMatch, ClassifyLongOption;
    LongFieldClassifies(name, value);
    NamesClassify(name);
    ClassIsUnique(name, only, OnlyMatch(name));
  }

  lemma NamesHaveNoEquals(name: string, option: LongOption)
    requires Abbreviates(name, option)
    ensures '=' !in name
  {
    assert '=' !in LongName(option);
    assert forall k :: 0 <= k < |name| ==> name[k] == LongName(option)[k];
  }

  // ---------------------------------------------------------------- one word

  lemma {:induction false} FlagsRun(arg: string, at: nat, end: nat, fields: seq<string>, idx: nat, options: Options)
    requires at <= end <= |arg| && idx <= |fields|
    requires forall k :: at <= k < end ==> arg[k] == 'i' || arg[k] == 'v'
    ensures ShortOptionAction(arg, at, fields, idx, options)
         == ShortOptionAction(arg, end, fields, idx, WithFlags(arg[at..end], options))
    decreases end - at
  {
    if at < end {
      assert arg[at..end] == [arg[at]] + arg[at + 1..end];
      FlagsRun(arg, at + 1, end, fields, idx, WithFlags([arg[at]], options));
    }
  }

  /** The action for a word's first field: on after the word, or an end, or a text to be split. */
  predicate Acts(a: Acted, meaning: Meaning, size: nat) {
    match meaning
    case Gathers(options) => a == Acted(Continue, size, options)
    case Ends => a.action.NoCommandAction? || a.action.InvalidAction?
    case Splits(text, options) => a == Acted(Resplit(text), size, options)
  }

  predicate IsOption(field: string) {
    "-" <= field && field != "-" && field != "--"
  }

  /** A field of letters, of which the first ones are flags. */
  lemma ShortFieldActs(world: World, arg: string, flags: string, tail: string, fields: seq<string>, options: Options)
    requires arg == "-" + flags + tail && flags + tail != "" && AreFlags(flags) && fields != []
    requires flags == "" ==> tail[0] != '-'
    ensures IsOption(arg) && arg[1 + |flags|..] == tail
    ensures OptionAction(world, arg, fields, 1, options)
         == ShortOptionAction(arg, 1 + |flags|, fields, 1, WithFlags(flags, options))
  {
    assert arg[1..1 + |flags|] == flags;
    assert arg[1] == (flags + tail)[0];
    assert forall k :: 1 <= k < 1 + |flags| ==> arg[k] == flags[k - 1] && flags[k - 1] in flags;
    FlagsRun(arg, 1, 1 + |flags|, fields, 1, options);
  }

  /** An option's letter, with its value behind it or in the next field. */
  lemma LetterActs(arg: string, at: nat, option: LongOption, fields: seq<string>, options: Options)
    requires at < |arg| && arg[at] == Letter(option) && TakesValue(option) && fields != []
    ensures var a := ShortOptionAction(arg, at, fields, 1, options);
      if at + 1 < |arg| then Acts(a, ValueMeaning(option, arg[at + 1..], options), 1)
      else if |fields| > 1 then Acts(a, ValueMeaning(option, fields[1], options), 2)
      else Acts(a, if option.Chdir? then Ends else Gathers(options), 1)
  {
  }

  lemma ShortWordActs(world: World, w: Word, rest: seq<string>, options: Options)
    requires IsWord(w) && (w.Valueless? ==> rest == [])
    requires w.Flags? || w.BadLetter? || ((w.Valued? || w.Valueless?) && w.spelling.Short?)
    ensures IsOption(Printed(w)[0])
    ensures Acts(OptionAction(world, Printed(w)[0], Printed(w) + rest, 1, options),
        WordMeaning(world, w, options), |Printed(w)|)
  {
    hide ClassifyLongOption;
    var fields := Printed(w) + rest;
    match w
    case Flags(flags) =>
      ShortFieldActs(world, fields[0], flags, "", fields, options);
    case BadLetter(flags, letter, tail) =>
      assert fields[0] == "-" + flags + ([letter] + tail);
      ShortFieldActs(world, fields[0], flags, [letter] + tail, fields, options);
    case Valued(Short(flags), option, value, attached) =>
      var tail := [Letter(option)] + if attached then value else "";
      assert fields[0] == "-" + flags + tail;
      assert tail[1..] == if attached then value else "";
      ShortFieldActs(world, fields[0], flags, tail, fields, options);
      LetterActs(fields[0], 1 + |flags|, option, fields, WithFlags(flags, options));
    case Valueless(Short(flags), option) =>
      ShortFieldActs(world, fields[0], flags, [Letter(option)], fields, options);
      LetterActs(fields[0], 1 + |flags|, option, fields, WithFlags(flags, options));
  }

  /** An option's name, with its value behind it or in the next field. */
  lemma NameActs(world: World, name: string, option: LongOption, value: Option<string>, fields: seq<string>,
      options: Options)
    requires Abbreviates(name, option) && TakesValue(option) && fields != []
    ensures var arg := "--" + name + Suffix(value);
      IsOption(arg) && var a := OptionAction(world, arg, fields, 1, options);
      if value.Some? then Acts(a, ValueMeaning(option, value.value, options), 1)
      else if |fields| > 1 then Acts(a, ValueMeaning(option, fields[1], options), 2)
      else Acts(a, if option.Chdir? then Ends else Gathers(options), 1)
  {
    assert name != "";
    hide ClassifyLongOption, Abbreviates;
    NamesHaveNoEquals(name, option);
    LongOptionReads(name, Some(option), value);
  }

  /** Any other name. */
  lemma FlagActs(world: World, w: Word, fields: seq<string>, options: Options)
    requires IsWord(w) && (w.LongFlag? || w.BadName?) && fields != []
    ensures IsOption(Printed(w)[0])
    ensures Acts(OptionAction(world, Printed(w)[0], fields, 1, options), WordMeaning(world, w, options), 1)
  {
    match w
    case LongFlag(name, option, behind) =>
      NamesHaveNoEquals(name, option);
      LongOptionReads(name, Some(option), behind);
      hide ClassifyLongOption, Abbreviates;
    case BadName(name, behind) =>
      LongOptionReads(name, None, behind);
      hide ClassifyLongOption, Abbreviates;
  }

  lemma LongWordActs(world: World, w: Word, rest: seq<string>, options: Options)
    requires IsWord(w) && (w.Valueless? ==> rest == [])
    requires w.LongFlag? || w.BadName? || ((w.Valued? || w.Valueless?) && w.spelling.Long?)
    ensures IsOption(Printed(w)[0])
    ensures Acts(OptionAction(world, Printed(w)[0], Printed(w) + rest, 1, options),
        WordMeaning(world, w, options), |Printed(w)|)
  {
    hide OptionAction, Abbreviates;
    var fields := Printed(w) + rest;
    match w
    case LongFlag(_, _, _) =>
      FlagActs(world, w, fields, options);
    case BadName(_, _) =>
      FlagActs(world, w, fields, options);
    case Valued(Long(name), option, value, attached) =>
      NameActs(world, name, option, if attached then Some(value) else None, fields, options);
      assert Printed(w)[0] == "--" + name + Suffix(if attached then Some(value) else None);
    case Valueless(Long(name), option) =>
      NameActs(world, name, option, None, fields, options);
      assert Printed(w)[0] == "--" + name + Suffix(None);
  }

  // ---------------------------------------------------------------- what comes before does not matter

  /** Actions on the same rest of two lists of fields. */
  predicate Shifted(a: Acted, idx: nat, b: Acted, jdx: nat) {
    a.action == b.action && a.options == b.options && a.idx - idx == b.idx - jdx
  }

  lemma {:induction false} ShortShifts(arg: string, at: nat, fields: seq<string>, idx: nat, others: seq<string>,
      jdx: nat, options: Options)
    requires at <= |arg| && idx <= |fields| && jdx <= |others| && fields[idx..] == others[jdx..]
    ensures Shifted(ShortOptionAction(arg, at, fields, idx, options), idx,
        ShortOptionAction(arg, at, others, jdx, options), jdx)
    decreases |arg| - at
  {
    assert idx < |fields| ==> fields[idx] == fields[idx..][0] == others[jdx];
    if at < |arg| && (arg[at] == 'i' || arg[at] == 'v') {
      ShortShifts(arg, at + 1, fields, idx, others, jdx, WithFlags([arg[at]], options));
    }
  }

  lemma OptionShifts(world: World, arg: string, fields: seq<string>, idx: nat, others: seq<string>, jdx: nat,
      options: Options)
    requires "-" <= arg && idx <= |fields| && jdx <= |others| && fields[idx..] == others[jdx..]
    ensures Shifted(OptionAction(world, arg, fields, idx, options), idx,
        OptionAction(world, arg, others, jdx, options), jdx)
  {
    hide ClassifyLongOption;
    assert idx < |fields| ==> fields[idx] == fields[idx..][0] == others[jdx];
    ShortShifts(arg, 1, fields, idx, others, jdx, options);
  }

  lemma TailsAgree(fields: seq<string>, idx: nat, others: seq<string>, jdx: nat, n: nat)
    requires idx + n <= |fields| && jdx <= |others| && fields[idx..] == others[jdx..]
    ensures jdx + n <= |others| && fields[idx + n..] == others[jdx + n..]
  {
    assert fields[idx..][n..] == fields[idx + n..];
    assert others[jdx..][n..] == others[jdx + n..];
  }

  lemma {:induction false} ProcessShifts(world: World, fields: seq<string>, idx: nat, others: seq<string>, jdx: nat,
      steps: nat, options: Options)
    requires idx <= |fields| && jdx <= |others| && fields[idx..] == others[jdx..] && steps <= SPLIT_LIMIT
    ensures Process(world, fields, idx, steps, options) == Process(world, others, jdx, steps, options)
    decreases |fields| - idx
  {
    hide OptionAction, Split;
    if idx < |fields| {
      assert fields[idx] == fields[idx..][0] == others[jdx];
      TailsAgree(fields, idx, others, jdx, 1);
      if IsOption(fields[idx]) {
        OptionShifts(world, fields[idx], fields, idx + 1, others, jdx + 1, options);
        var a := OptionAction(world, fields[idx], fields, idx + 1, options);
        TailsAgree(fields, idx, others, jdx, a.idx - idx);
        if a.action.Continue? {
          var b := OptionAction(world, fields[idx], others, jdx + 1, options);
          ProcessShifts(world, fields, a.idx, others, b.idx, steps, a.options);
        }
      }
    }
  }

  /** A word at the front leads to what it means. */
  lemma WordProcesses(world: World, w: Word, rest: seq<string>, steps: nat, options: Options)
    requires IsWord(w) && (w.Valueless? ==> rest == []) && steps <= SPLIT_LIMIT
    ensures Process(world, Printed(w) + rest, 0, steps, options)
         == Follow(world, WordMeaning(world, w, options), rest, steps)
  {
    var fields := Printed(w) + rest;
    if w.LongFlag? || w.BadName? || ((w.Valued? || w.Valueless?) && w.spelling.Long?) {
      LongWordActs(world, w, rest, options);
    } else {
      ShortWordActs(world, w, rest, options);
    }
    hide OptionAction, SplitFrom;
    assert fields[0] == Printed(w)[0] && fields[|Printed(w)|..] == rest;
    var meaning := WordMeaning(world, w, options);
    if meaning.Gathers? {
      ProcessShifts(world, fields, |Printed(w)|, rest, 0, steps, meaning.options);
    }
  }

  // ---------------------------------------------------------------- every field reads

  function FlagsEnd(arg: string, at: nat): (n: nat)
    requires at <= |arg|
    ensures at <= n <= |arg| && (forall k :: at <= k < n ==> arg[k] == 'i' || arg[k] == 'v')
    ensures n < |arg| ==> arg[n] != 'i' && arg[n] != 'v'
    decreases |arg| - at
  {
    if at < |arg| && (arg[at] == 'i' || arg[at] == 'v') then FlagsEnd(arg, at + 1) else at
  }

  ghost predicate Reads(fields: seq<string>, w: Word, rest: seq<string>) {
    IsWord(w) && fields == Printed(w) + rest && (w.Valueless? ==> rest == [])
  }

  /** An option whose value is in the next field, or missing where there is none. */
  lemma WithNextField(spelling: Spelling, option: LongOption, fields: seq<string>) returns (w: Word, rest: seq<string>)
    requires fields != [] && IsSpelled(spelling, option) && fields[0] == Opening(spelling, option)
    ensures Reads(fields, w, rest)
  {
    if |fields| > 1 {
      w, rest := Valued(spelling, option, fields[1], false), fields[2..];
    } else {
      w, rest := Valueless(spelling, option), [];
    }
  }

  lemma ShortFieldReads(arg: string) returns (flags: string, tail: string)
    requires IsOption(arg) && !("--" <= arg)
    ensures arg == "-" + flags + tail && AreFlags(flags) && (flags == "" ==> tail != "" && tail[0] != '-')
    ensures tail != "" ==> tail[0] != 'i' && tail[0] != 'v'
  {
    var n := FlagsEnd(arg, 1);
    flags, tail := arg[1..n], arg[n..];
  }

  function ShortOption(letter: char): Option<LongOption> {
    match letter
    case 'S' => Some(SplitString)
    case 'u' => Some(Unset)
    case 'a' => Some(Argv0)
    case 'C' => Some(Chdir)
    case _ => None
  }

  lemma ShortFieldsRead(fields: seq<string>) returns (w: Word, rest: seq<string>)
    requires fields != [] && IsOption(fields[0]) && !("--" <= fields[0])
    ensures Reads(fields, w, rest)
  {
    var flags, tail := ShortFieldReads(fields[0]);
    assert fields == [fields[0]] + fields[1..];
    w, rest := Flags(flags), fields[1..];
    assert tail == "" ==> Printed(w)[0] == fields[0];
    if tail != "" {
      assert tail == [tail[0]] + tail[1..];
      w := BadLetter(flags, tail[0], tail[1..]);
      assert Printed(w)[0] == fields[0];
      var option := ShortOption(tail[0]);
      if option.Some? {
        if |tail| > 1 {
          w := Valued(Short(flags), option.value, tail[1..], true);
          assert Printed(w)[0] == fields[0];
        } else {
          w, rest := WithNextField(Short(flags), option.value, fields);
        }
      }
    }
  }

  lemma LongFieldReads(arg: string) returns (name: string, value: Option<string>)
    requires IsOption(arg) && "--" <= arg
    ensures arg == "--" + name + Suffix(value) && '=' !in name && (name != "" || value.Some?)
  {
    hide IndexOf;
    var body := arg[2..];
    var eq := IndexOf(body, 0, '=');
    name, value := body[..eq], if eq < |body| then Some(body[eq + 1..]) else None;
    IndexFinds(body, 0, '=');
    assert body[0..eq] == name && body == name + Suffix(value);
  }

  lemma LongFieldsRead(fields: seq<string>) returns (w: Word, rest: seq<string>)
    requires fields != [] && IsOption(fields[0]) && "--" <= fields[0]
    ensures Reads(fields, w, rest)
  {
    hide OnlyMatch, LongName;
    var name, value := LongFieldReads(fields[0]);
    NamesClassify(name);
    assert fields == [fields[0]] + fields[1..];
    w, rest := BadName(name, value), fields[1..];
    if OnlyMatch(name).Some? {
      var option := OnlyMatch(name).value;
      w := LongFlag(name, option, value);
      if TakesValue(option) {
        if value.Some? {
          w := Valued(Long(name), option, value.value, true);
          assert Printed(w)[0] == fields[0];
        } else {
          assert Opening(Long(name), option) == fields[0];
          w, rest := WithNextField(Long(name), option, fields);
        }
      }
    }
  }

  /** Every field that begins with a dash is a word, alone or with the field behind it; only a dash
      by itself, or two, is not. */
  lemma FieldsRead(fields: seq<string>) returns (w: Word, rest: seq<string>)
    requires fields != [] && IsOption(fields[0])
    ensures Reads(fields, w, rest)
  {
    if "--" <= fields[0] {
      w, rest := LongFieldsRead(fields);
    } else {
      w, rest := ShortFieldsRead(fields);
    }
  }

  // ---------------------------------------------------------------- a line of options and operands

  function PrintedAll(words: seq<Word>): seq<string> {
    if words == [] then [] else Printed(words[0]) + PrintedAll(words[1..])
  }

  /** Words that only gather options. */
  ghost predicate AllGather(world: World, words: seq<Word>, options: Options) {
    words != [] ==>
      && IsWord(words[0]) && !words[0].Valueless?
      && var meaning := WordMeaning(world, words[0], options);
         meaning.Gathers? && AllGather(world, words[1..], meaning.options)
  }

  function Gathered(world: World, words: seq<Word>, options: Options): Options {
    if words == [] then options
    else
      match WordMeaning(world, words[0], options)
      case Gathers(gathered) => Gathered(world, words[1..], gathered)
      case _ => options
  }

  lemma {:induction false} WordsProcess(world: World, words: seq<Word>, rest: seq<string>, steps: nat, options: Options)
    requires AllGather(world, words, options) && steps <= SPLIT_LIMIT
    ensures Process(world, PrintedAll(words) + rest, 0, steps, options)
         == Process(world, rest, 0, steps, Gathered(world, words, options))
    decreases |words|
  {
    if words == [] {
      assert [] + rest == rest;
    } else {
      assert PrintedAll(words) + rest == Printed(words[0]) + (PrintedAll(words[1..]) + rest);
      WordProcesses(world, words[0], PrintedAll(words[1..]) + rest, steps, options);
      WordsProcess(world, words[1..], rest, steps, WordMeaning(world, words[0], options).options);
    }
  }

  predicate Unsets(w: Word, name: string) {
    w.Valued? && w.option.Unset? && w.value == name
  }

  predicate Clears(w: Word) {
    match w
    case Flags(flags) => 'i' in flags
    case Valued(Short(flags), _, _, _) => 'i' in flags
    case LongFlag(_, option, _) => option.IgnoreEnvironment?
    case _ => false
  }

  function LastDirectory(words: seq<Word>): Option<string> {
    if words == [] then None
    else
      var later := LastDirectory(words[1..]);
      if later.None? && words[0].Valued? && words[0].option.Chdir? then Some(words[0].value) else later
  }

  lemma WordGathers(world: World, w: Word, options: Options)
    requires WordMeaning(world, w, options).Gathers? && !w.Valueless?
    ensures var gathered := WordMeaning(world, w, options).options;
      && (forall name :: name in gathered.unsetNames <==> name in options.unsetNames || Unsets(w, name))
      && (gathered.ignoreEnvironment <==> options.ignoreEnvironment || Clears(w))
      && gathered.chdir == if w.Valued? && w.option.Chdir? then Some(w.value) else options.chdir
  {
  }

  /** What gathering comes to, told from the words alone. */
  lemma {:induction false} GatheredMeans(world: World, words: seq<Word>, options: Options)
    requires AllGather(world, words, options)
    ensures var gathered := Gathered(world, words, options);
      && (forall name :: name in gathered.unsetNames <==>
            name in options.unsetNames || exists w <- words :: Unsets(w, name))
      && (gathered.ignoreEnvironment <==> options.ignoreEnvironment || exists w <- words :: Clears(w))
      && gathered.chdir == if LastDirectory(words).Some? then LastDirectory(words) else options.chdir
    decreases |words|
  {
    if words != [] {
      hide WordMeaning, IsWord;
      WordGathers(world, words[0], options);
      GatheredMeans(world, words[1..], WordMeaning(world, words[0], options).options);
      assert words == [words[0]] + words[1..];
      assert forall w :: w in words <==> w == words[0] || w in words[1..];
      forall name
        ensures (exists w <- words :: Unsets(w, name)) <==>
          Unsets(words[0], name) || exists w <- words[1..] :: Unsets(w, name)
      {
      }
    }
  }

  // ---------------------------------------------------------------- what a line runs

  /** What begins the operands is no option, or two dashes stand before them. */
  predicate Separates(dashes: bool, operands: seq<string>) {
    dashes || (operands != [] && !IsOption(operands[0]) && operands[0] != "--")
  }

  function LineFields(words: seq<Word>, dashes: bool, operands: seq<string>): seq<string> {
    PrintedAll(words) + ((if dashes then ["--"] else []) + operands)
  }

  /** Options followed by operands: no option is taken for an operand, nor an operand for an option. */
  lemma OptionsEndAtOperands(world: World, words: seq<Word>, dashes: bool, operands: seq<string>)
    requires AllGather(world, words, NO_OPTIONS) && Separates(dashes, operands)
    ensures Process(world, LineFields(words, dashes, operands), 0, 0, NO_OPTIONS)
         == Operands(operands, Gathered(world, words, NO_OPTIONS))
  {
    var rest := (if dashes then ["--"] else []) + operands;
    WordsProcess(world, words, rest, 0, NO_OPTIONS);
    if dashes {
      assert rest[1..] == operands;
    } else {
      assert rest[0..] == operands;
    }
  }

  predicate ClearsLine(words: seq<Word>, operands: seq<string>) {
    (operands != [] && operands[0] == "-") || exists w <- words :: Clears(w)
  }

  predicate UnsetsInLine(words: seq<Word>, name: string) {
    exists w <- words :: Unsets(w, name)
  }

  /** What env runs, or that it runs nothing, for operands under given options: whether they clear the
      environment, which names they unset, and the directory they ask for. */
  ghost predicate IsRun(world: World, operands: seq<string>, invalid: bool, clears: bool, unset: iset<string>,
      chdir: Option<string>, r: Option<Command>)
  {
    var rest := if operands != [] && operands[0] == "-" then operands[1..] else operands;
    var k := FirstCommand(rest);
    match r
    case None =>
      || invalid
      || (!clears && exists name :: name in unset && (name == "" || '=' in name))
      || k == |rest|
      || (chdir.Some? && (chdir.value == "" || world.directory(chdir.value).None?))
    case Some(command) =>
      && !invalid
      && (clears || forall name :: name in unset ==> name != "" && '=' !in name)
      && k < |rest| && command.name == rest[k] && '=' !in rest[k] && (forall j :: 0 <= j < k ==> '=' in rest[j])
      && (if chdir.None? then command.cwd == world.cwd
          else chdir.value != "" && command.cwd.Some? && command.cwd == world.directory(chdir.value))
      && forall name :: !Assigns(rest, 0, k, name) ==>
           && (name in command.env <==> !clears && name !in unset && name in world.env)
           && (name in command.env ==> command.env[name] == world.env[name])
  }

  lemma CommandsAreSearched(world: World, operands: seq<string>, options: Options, command: Command)
    requires OperandsCommand(world, operands, options) == Some(command)
    ensures command.searchModified <==>
      || command.cwd != world.cwd
      || ("PATH" in command.env && "PATH" !in world.env)
      || ("PATH" !in command.env && "PATH" in world.env)
      || ("PATH" in command.env && "PATH" in world.env && command.env["PATH"] != world.env["PATH"])
  {
  }

  lemma FirstCommandIsFirst(operands: seq<string>)
    ensures var k := FirstCommand(operands);
      (forall j :: 0 <= j < k ==> '=' in operands[j]) && (k < |operands| ==> '=' !in operands[k])
  {
    var k := FirstCommand(operands);
    assert forall j :: 0 <= j < k ==> operands[..k][j] == operands[j] && operands[j] in operands[..k];
  }

  lemma OperandsRun(world: World, operands: seq<string>, options: Options)
    ensures IsRun(world, operands, options.invalidSignalDisposition, IsCleared(operands, options),
        (iset name | name in options.unsetNames), options.chdir, OperandsCommand(world, operands, options))
  {
    var rest := AfterDash(operands);
    var k := FirstCommand(rest);
    var base := Base(world, operands, options);
    FirstCommandIsFirst(rest);
    hide FirstCommand;
    forall name | !Assigns(rest, 0, k, name)
      ensures name in Assign(base, rest, k) <==> name in base
      ensures name in base ==> Assign(base, rest, k)[name] == base[name]
    {
      OthersKeepTheirValues(base, rest, k, name);
    }
    var unset := iset name | name in options.unsetNames;
    if UnsetsFail(operands, options) {
      var name :| name in options.unsetNames && !IsValidUnsetName(name);
      assert name in unset;
    }
    assert forall name :: name in unset <==> name in options.unsetNames;
  }

  /** The command of such a line is its first operand that is no assignment; no name given to -u is
      in its environment, and after -i none at all, unless assigned; any other name that is not
      assigned is there with the value that was inherited; it runs where the last -C leads; and the
      search for it is as inherited exactly if that directory and PATH are. */
  lemma LineRuns(world: World, words: seq<Word>, dashes: bool, operands: seq<string>)
    requires AllGather(world, words, NO_OPTIONS) && Separates(dashes, operands)
    ensures var answer := AnswerOf(world, Process(world, LineFields(words, dashes, operands), 0, 0, NO_OPTIONS));
      && answer.Runs?
      && IsRun(world, operands, Gathered(world, words, NO_OPTIONS).invalidSignalDisposition,
           ClearsLine(words, operands), (iset name | UnsetsInLine(words, name)), LastDirectory(words), answer.command)
      && (answer.command.Some? ==>
            var command := answer.command.value;
            command.searchModified <==>
              || command.cwd != world.cwd
              || ("PATH" in command.env && "PATH" !in world.env)
              || ("PATH" !in command.env && "PATH" in world.env)
              || ("PATH" in command.env && "PATH" in world.env && command.env["PATH"] != world.env["PATH"]))
  {
    hide Process, OperandsCommand, IsRun;
    OptionsEndAtOperands(world, words, dashes, operands);
    GatheredMeans(world, words, NO_OPTIONS);
    var options := Gathered(world, words, NO_OPTIONS);
    OperandsRun(world, operands, options);
    assert (iset name | name in options.unsetNames) == (iset name | UnsetsInLine(words, name));
    if OperandsCommand(world, operands, options).Some? {
      CommandsAreSearched(world, operands, options, OperandsCommand(world, operands, options).value);
    }
  }

  /** A shebang line that gives the fields of such a line in quotation marks behind -S leads there. */
  lemma QuotedLineRuns(world: World, items: seq<EnvLanguage.Item>)
    requires forall item <- items :: item.Valid()
    ensures ArgumentOutcome(world, "-S" + EnvLanguage.Line(EnvLanguage.Quoting(items), EnvLanguage.Nothing))
         == Process(world, EnvLanguage.Texts(items), 0, 0, NO_OPTIONS)
  {
    DashSSplits(EnvLanguage.Line(EnvLanguage.Quoting(items), EnvLanguage.Nothing));
    EnvLanguage.QuotingRoundTrip(world.env, items);
  }
}
