/** What a hand-written line of the configuration file does (src/cli.rs, apply_config_line), told from
    its text: white space at both ends, a key with or without two dashes, and a value. */
module ConfigLines {
  import opened Results
  import opened Text
  import opened SignalNames
  import opened Config

  predicate IsBlank(s: string) {
    forall c <- s :: IsWhitespace(c)
  }

  datatype Line = Line(lead: string, dashes: bool, key: string, gap: string, value: string, trail: string) {
    function Text(): string {
      lead + (if dashes then "--" else "") + key + gap + value + trail
    }

    /** A key is any word, which may not be mistaken for a comment or for one with dashes. */
    predicate Valid() {
      && IsBlank(lead) && IsBlank(gap) && IsBlank(trail)
      && key != "" && (forall c <- key :: !IsWhitespace(c))
      && (!dashes ==> key[0] != '#' && (|key| > 2 ==> key[..2] != "--"))
      && IsTrimmed(value) && (if value == "" then gap == "" else gap != "")
    }
  }

  const FLAG_KEYS: set<string> :=
    {"subreaper", "warn-on-reap", "pgroup-kill", "write-restrict", "restrict-warn-only", "write-no-dev",
     "scope-signals", "scope-abstract-unix", "expand-env"}

  const NUMBER_KEYS: set<string> :=
    {"verbosity", "remap-exit", "grace-ms", "bind-tcp-allow", "connect-tcp-allow"}

  const TEXT_KEYS: set<string> :=
    {"pdeath", "parent-death-signal", "write-allow", "write-preset", "exec-allow", "device-ioctl-allow"}

  /** A flag that stands alone is set, and nothing else changes. */
  predicate FlagSets(key: string, before: Cli, after: Cli) {
    && (key == "subreaper" ==> after == before.(subreaper := true))
    && (key == "warn-on-reap" ==> after == before.(warnOnReap := true))
    && (key == "pgroup-kill" ==> after == before.(pgroupKill := true))
    && (key == "write-restrict" ==> after == before.(writeRestrict := true))
    && (key == "restrict-warn-only" ==> after == before.(restrictWarnOnly := true))
    && (key == "write-no-dev" ==> after == before.(writeNoDev := true))
    && (key == "scope-signals" ==> after == before.(scopeSignals := true))
    && (key == "scope-abstract-unix" ==> after == before.(scopeAbstractUnix := true))
    && (key == "expand-env" ==> after == before.(expandEnv := true))
  }

  /** The least and greatest number for a key, and what is reported outside of them but within the
      width of its integer. */
  function Least(key: string): nat {
    if key == "bind-tcp-allow" || key == "connect-tcp-allow" then 1 else 0
  }

  function Greatest(key: string): nat {
    if key == "verbosity" then 3
    else if key == "remap-exit" then 255
    else if key == "grace-ms" then 18446744073709551615
    else 65535
  }

  function OutOfRange(key: string, n: nat): Problem {
    if key == "verbosity" && n <= 255 then BadVerbosity else if n == 0 then BadPort else BadNumber
  }

  /** A number is stored or added to its list, and nothing else changes. */
  predicate NumberSets(key: string, n: nat, before: Cli, after: Cli)
    requires n <= Greatest(key)
  {
    && (key == "verbosity" ==> after == before.(verbosity := n))
    && (key == "remap-exit" ==> after == before.(remapExit := before.remapExit + [n]))
    && (key == "grace-ms" ==> after == before.(graceMs := n))
    && (key == "bind-tcp-allow" ==> after == before.(bindTcpAllow := before.bindTcpAllow + [n]))
    && (key == "connect-tcp-allow" ==> after == before.(connectTcpAllow := before.connectTcpAllow + [n]))
  }

  /** The same for texts: a signal becomes its canonical name, a preset is one of two words, and a
      path is taken as it is. */
  predicate TextSets(key: string, value: string, before: Cli, r: Result<Cli, Problem>) {
    && (key == "pdeath" || key == "parent-death-signal" ==>
          r == match ParseSignal(value)
               case None => Err(BadSignal)
               case Some(name) => Ok(before.(pdeath := Some(name))))
    && (key == "write-preset" ==>
          r == if value == "tmp" then Ok(before.(writePreset := before.writePreset + [Tmp]))
               else if value == "runtime" then Ok(before.(writePreset := before.writePreset + [Runtime]))
               else Err(BadPreset))
    && (key == "write-allow" ==> r == Ok(before.(writeAllow := before.writeAllow + [value])))
    && (key == "exec-allow" ==> r == Ok(before.(execAllow := before.execAllow + [value])))
    && (key == "device-ioctl-allow" ==> r == Ok(before.(deviceIoctlAllow := before.deviceIoctlAllow + [value])))
  }

  // ---------------------------------------------------------------- a line is taken apart

  lemma {:induction false} TrimStartSkips(lead: string, rest: string)
    requires IsBlank(lead) && (rest == "" || !IsWhitespace(rest[0]))
    ensures TrimStart(lead + rest) == rest
  {
    if lead == "" {
      assert lead + rest == rest;
    } else {
      assert (lead + rest)[1..] == lead[1..] + rest;
      TrimStartSkips(lead[1..], rest);
    }
  }

  lemma {:induction false} TrimEndSkips(text: string, trail: string)
    requires IsBlank(trail) && (text == "" || !IsWhitespace(text[|text| - 1]))
    ensures TrimEnd(text + trail) == text
    decreases |trail|
  {
    if trail == "" {
      assert text + trail == text;
    } else {
      var last := |trail| - 1;
      assert (text + trail)[..|text + trail| - 1] == text + trail[..last];
      TrimEndSkips(text, trail[..last]);
    }
  }

  lemma TrimSkips(lead: string, text: string, trail: string)
    requires IsBlank(lead) && IsBlank(trail) && text != "" && IsTrimmed(text)
    ensures Trim(lead + text + trail) == text
  {
    assert lead + text + trail == lead + (text + trail);
    TrimStartSkips(lead, text + trail);
    TrimEndSkips(text, trail);
  }

  lemma BlankTrims(lead: string)
    requires IsBlank(lead)
    ensures Trim(lead) == ""
  {
    assert lead + "" == lead;
    TrimStartSkips(lead, "");
  }

  /** The line without the white space around it. */
  function Core(line: Line): string {
    (if line.dashes then "--" else "") + line.key + (line.gap + line.value)
  }

  lemma CoreIsTrimmed(line: Line)
    requires line.Valid()
    ensures Trim(line.Text()) == Core(line) && !IsSkipped(Core(line))
  {
    var core := Core(line);
    assert line.Text() == line.lead + core + line.trail;
    assert core[0] == (if line.dashes then '-' else line.key[0]);
    assert line.key[0] in line.key && line.key[|line.key| - 1] in line.key;
    if line.value == "" {
      assert core[|core| - 1] == line.key[|line.key| - 1];
    } else {
      assert core[|core| - 1] == line.value[|line.value| - 1];
    }
    TrimSkips(line.lead, core, line.trail);
  }

  function ValueOf(line: Line): Option<string> {
    if line.value == "" then None else Some(line.value)
  }

  lemma CoreSplits(line: Line)
    requires line.Valid()
    ensures SplitConfigLine(Core(line)) == (line.key, ValueOf(line))
  {
    var raw := (if line.dashes then "--" else "") + line.key;
    var rest := line.gap + line.value;
    assert forall c <- raw :: c == '-' || c in line.key;
    assert rest != "" ==> rest[0] == line.gap[0] && line.gap[0] in line.gap;
    FirstWhitespaceAfter(raw, rest);
    assert Core(line) == raw + rest;
    assert (raw + rest)[..|raw|] == raw && (raw + rest)[|raw|..] == rest;
    if line.dashes {
      assert raw[..2] == "--" && raw[2..] == line.key && |raw| > 2;
    } else {
      assert raw == line.key;
    }
    if line.value != "" {
      assert rest == line.gap + line.value + "";
      TrimSkips(line.gap, line.value, "");
      assert Trim(rest) == line.value && |raw| < |raw + rest|;
    }
  }

  /** Reading goes on behind a line that gave a setting, and ends with the number of one that did not. */
  function ReadOn(cli: Cli, r: Result<Setting, Problem>, rest: seq<string>, lineNo: nat): Result<Cli, ConfigError> {
    match r
    case Err(e) => Err(ConfigError.At(lineNo, e))
    case Ok(s) => ReadLines(Set(cli, s), rest, lineNo + 1)
  }

  /** What a line does comes from its key and value alone. */
  lemma LineIsRead(cli: Cli, line: Line, rest: seq<string>, lineNo: nat)
    requires line.Valid()
    ensures ReadLines(cli, [line.Text()] + rest, lineNo)
         == ReadOn(cli, ReadSetting(line.key, ValueOf(line)), rest, lineNo)
  {
    CoreIsTrimmed(line);
    CoreSplits(line);
    hide Trim, SplitConfigLine, ReadSetting, Core, Set, IsSkipped;
    assert ([line.Text()] + rest)[1..] == rest;
  }

  // ---------------------------------------------------------------- what a line does

  /** An empty line and a comment change nothing. */
  lemma CommentsAreSkipped(cli: Cli, lead: string, comment: string, rest: seq<string>, lineNo: nat)
    requires IsBlank(lead)
    ensures ReadLines(cli, [lead] + rest, lineNo) == ReadLines(cli, rest, lineNo + 1)
    ensures ReadLines(cli, [lead + "#" + comment] + rest, lineNo) == ReadLines(cli, rest, lineNo + 1)
  {
    BlankTrims(lead);
    var text := "#" + comment;
    assert lead + "#" + comment == lead + text;
    TrimStartSkips(lead, text);
    TrimEndKeepsHash(text);
    hide Trim;
    assert ([lead] + rest)[1..] == rest && ([lead + text] + rest)[1..] == rest;
  }

  lemma {:induction false} TrimEndKeepsHash(text: string)
    requires text != "" && text[0] == '#'
    ensures TrimEnd(text) != "" && TrimEnd(text)[0] == '#'
  {
    if IsWhitespace(text[|text| - 1]) {
      TrimEndKeepsHash(text[..|text| - 1]);
    }
  }

  lemma FlagNumbers(key: string)
    requires key in FLAG_KEYS
    ensures OptionNumber(key)
         == Ok(if key == "subreaper" then 0 else if key == "warn-on-reap" then 3 else if key == "pgroup-kill" then 4
               else if key == "write-restrict" then 7 else if key == "restrict-warn-only" then 10
               else if key == "write-no-dev" then 11 else if key == "scope-signals" then 14
               else if key == "scope-abstract-unix" then 15 else 18)
  {
  }

  lemma NumberNumbers(key: string)
    requires key in NUMBER_KEYS
    ensures OptionNumber(key)
         == Ok(if key == "verbosity" then 2 else if key == "remap-exit" then 5 else if key == "grace-ms" then 6
               else if key == "bind-tcp-allow" then 12 else 13)
  {
  }

  lemma TextNumbers(key: string)
    requires key in TEXT_KEYS
    ensures OptionNumber(key)
         == Ok(if key == "pdeath" || key == "parent-death-signal" then 1 else if key == "write-allow" then 8
               else if key == "write-preset" then 9 else if key == "exec-allow" then 16 else 17)
  {
  }

  /** A flag with a value is refused, whatever the value. */
  lemma FlagsTakeNoValue(cli: Cli, line: Line, rest: seq<string>, lineNo: nat)
    requires line.Valid() && line.key in FLAG_KEYS && line.value != ""
    ensures ReadLines(cli, [line.Text()] + rest, lineNo) == Err(ConfigError.At(lineNo, TakesNoValue))
  {
    hide OptionNumber, ReadLines;
    LineIsRead(cli, line, rest, lineNo);
    FlagNumbers(line.key);
  }

  lemma FlagSetsField(key: string, cli: Cli)
    requires key in FLAG_KEYS
    ensures ReadSetting(key, None).Ok? && FlagSets(key, cli, Set(cli, ReadSetting(key, None).value))
  {
    hide OptionNumber;
    FlagNumbers(key);
  }

  /** Without one it is set, and reading goes on behind it. */
  lemma FlagsAreSet(cli: Cli, line: Line, rest: seq<string>, lineNo: nat)
    requires line.Valid() && line.key in FLAG_KEYS && line.value == ""
    ensures exists after: Cli ::
      && FlagSets(line.key, cli, after)
      && ReadLines(cli, [line.Text()] + rest, lineNo) == ReadLines(after, rest, lineNo + 1)
  {
    hide ReadSetting, ReadLines, FlagSets, Set;
    LineIsRead(cli, line, rest, lineNo);
    FlagSetsField(line.key, cli);
    assert FlagSets(line.key, cli, Set(cli, ReadSetting(line.key, None).value));
  }

  /** Every other option needs a value. */
  lemma ValuesAreRequired(cli: Cli, line: Line, rest: seq<string>, lineNo: nat)
    requires line.Valid() && line.key in NUMBER_KEYS + TEXT_KEYS && line.value == ""
    ensures ReadLines(cli, [line.Text()] + rest, lineNo) == Err(ConfigError.At(lineNo, RequiresValue))
  {
    hide OptionNumber, ReadLines;
    LineIsRead(cli, line, rest, lineNo);
    if line.key in NUMBER_KEYS {
      NumberNumbers(line.key);
    } else {
      TextNumbers(line.key);
    }
  }

  /** Any other key is an error, whatever its value. */
  lemma OtherKeysAreRefused(cli: Cli, line: Line, rest: seq<string>, lineNo: nat)
    requires line.Valid() && line.key !in FLAG_KEYS + NUMBER_KEYS + TEXT_KEYS
    ensures ReadLines(cli, [line.Text()] + rest, lineNo)
         == Err(ConfigError.At(lineNo,
              if line.key in {"explain", "print-config", "write-config", "check-config", "help", "version", "no-config"}
              then CommandLineOnly else UnknownOption))
  {
    OtherNumbers(line.key);
    hide OptionNumber, ReadLines;
    LineIsRead(cli, line, rest, lineNo);
  }

  lemma OtherNumbers(key: string)
    requires key !in FLAG_KEYS && key !in NUMBER_KEYS && key !in TEXT_KEYS
    ensures OptionNumber(key)
         == Err(if key in {"explain", "print-config", "write-config", "check-config", "help", "version", "no-config"}
              then CommandLineOnly else UnknownOption)
  {
  }

  /** Digits, behind a plus sign or not, that stand for a number. */
  ghost predicate IsNumeral(text: string, n: nat) {
    exists digits: string :: IsDigits(digits) && DigitsValue(digits) == n && (text == digits || text == "+" + digits)
  }

  predicate IsDigits(digits: string) {
    digits != "" && forall c <- digits :: IsDigit(c)
  }

  lemma NumeralsParse(text: string, max: nat, n: nat)
    ensures IsNumeral(text, n) ==> ParseUnsigned(text, max) == if n <= max then Some(n) else None
    ensures ParseUnsigned(text, max) == Some(n) ==> IsNumeral(text, n) && n <= max
  {
    var digits := if text != "" && text[0] == '+' then text[1..] else text;
    if IsNumeral(text, n) {
      var written: string :|
        IsDigits(written) && DigitsValue(written) == n && (text == written || text == "+" + written);
      assert written[0] in written;
      assert written == digits;
    }
    if ParseUnsigned(text, max) == Some(n) {
      assert IsDigits(digits) && (text == digits || text == "+" + digits);
    }
  }

  lemma NumberSetsField(key: string, value: string, n: nat, cli: Cli)
    requires key in NUMBER_KEYS && '\0' !in value && '\n' !in value && '\r' !in value && IsNumeral(value, n)
    ensures var s := ReadSetting(key, Some(value));
      if Least(key) <= n <= Greatest(key) then s.Ok? && NumberSets(key, n, cli, Set(cli, s.value))
      else s == Err(OutOfRange(key, n))
  {
    hide OptionNumber, ParseUnsigned, IsNumeral;
    NumberNumbers(key);
    NumeralsParse(value, U8_MAX, n);
    NumeralsParse(value, U16_MAX, n);
    NumeralsParse(value, U64_MAX, n);
  }

  /** A numeral in the range of its key is stored; one outside is reported, and so is any other text. */
  lemma NumbersAreRead(cli: Cli, line: Line, rest: seq<string>, lineNo: nat, n: nat)
    requires line.Valid() && line.key in NUMBER_KEYS && line.value != "" && '\0' !in line.value
    requires '\n' !in line.value && '\r' !in line.value && IsNumeral(line.value, n)
    ensures var r := ReadLines(cli, [line.Text()] + rest, lineNo);
      if Least(line.key) <= n <= Greatest(line.key) then
        exists after: Cli :: NumberSets(line.key, n, cli, after) && r == ReadLines(after, rest, lineNo + 1)
      else r == Err(ConfigError.At(lineNo, OutOfRange(line.key, n)))
  {
    hide ReadSetting, ReadLines, NumberSets, Set, Least, Greatest, OutOfRange;
    LineIsRead(cli, line, rest, lineNo);
    NumberSetsField(line.key, line.value, n, cli);
    var s := ReadSetting(line.key, Some(line.value));
    if s.Ok? && Least(line.key) <= n <= Greatest(line.key) {
      assert NumberSets(line.key, n, cli, Set(cli, s.value));
    }
  }

  lemma OtherTextsAreNoNumbers(cli: Cli, line: Line, rest: seq<string>, lineNo: nat)
    requires line.Valid() && line.key in NUMBER_KEYS && line.value != "" && '\0' !in line.value
    requires '\n' !in line.value && '\r' !in line.value && forall n :: !IsNumeral(line.value, n)
    ensures ReadLines(cli, [line.Text()] + rest, lineNo) == Err(ConfigError.At(lineNo, BadNumber))
  {
    hide OptionNumber, ReadLines;
    LineIsRead(cli, line, rest, lineNo);
    NumberNumbers(line.key);
    forall max: nat
      ensures ParseUnsigned(line.value, max).None?
    {
      if ParseUnsigned(line.value, max).Some? {
        NumeralsParse(line.value, max, ParseUnsigned(line.value, max).value);
      }
    }
  }

  lemma TextSetsField(key: string, value: string, cli: Cli, read: Result<Cli, Problem>)
    requires key in TEXT_KEYS && '\0' !in value && '\n' !in value && '\r' !in value
    requires var s := ReadSetting(key, Some(value));
      read == if s.Err? then Err(s.error) else Ok(Set(cli, s.value))
    ensures TextSets(key, value, cli, read)
  {
    hide OptionNumber;
    TextNumbers(key);
  }

  /** The texts. */
  lemma TextsAreRead(cli: Cli, line: Line, rest: seq<string>, lineNo: nat)
    requires line.Valid() && line.key in TEXT_KEYS && line.value != "" && '\0' !in line.value
    requires '\n' !in line.value && '\r' !in line.value
    ensures exists read: Result<Cli, Problem> ::
      && TextSets(line.key, line.value, cli, read)
      && ReadLines(cli, [line.Text()] + rest, lineNo)
         == if read.Err? then Err(ConfigError.At(lineNo, read.error)) else ReadLines(read.value, rest, lineNo + 1)
  {
    hide ReadSetting, ReadLines, TextSets, Set;
    LineIsRead(cli, line, rest, lineNo);
    var s := ReadSetting(line.key, Some(line.value));
    var read: Result<Cli, Problem> := if s.Err? then Err(s.error) else Ok(Set(cli, s.value));
    TextSetsField(line.key, line.value, cli, read);
  }

  /** A NUL is refused in every value that an option takes. */
  lemma NulIsRefused(cli: Cli, line: Line, rest: seq<string>, lineNo: nat)
    requires line.Valid() && line.key in NUMBER_KEYS + TEXT_KEYS && '\0' in line.value
    requires '\n' !in line.value && '\r' !in line.value
    ensures ReadLines(cli, [line.Text()] + rest, lineNo) == Err(ConfigError.At(lineNo, Nul))
  {
    hide OptionNumber, ReadLines;
    LineIsRead(cli, line, rest, lineNo);
    if line.key in NUMBER_KEYS {
      NumberNumbers(line.key);
    } else {
      TextNumbers(line.key);
    }
  }

  /** Lines are read in order: what follows starts from what the first ones came to, or is not read. */
  lemma {:induction false} LinesAreReadInOrder(cli: Cli, first: seq<string>, rest: seq<string>, lineNo: nat)
    ensures ReadLines(cli, first + rest, lineNo)
         == var r := ReadLines(cli, first, lineNo);
            if r.Ok? then ReadLines(r.value, rest, lineNo + |first|) else r
    decreases |first|
  {
    hide Trim, ReadLine;
    if first == [] {
      assert [] + rest == rest;
    } else {
      assert (first + rest)[0] == first[0] && (first + rest)[1..] == first[1..] + rest;
      var line := Trim(first[0]);
      if IsSkipped(line) {
        LinesAreReadInOrder(cli, first[1..], rest, lineNo + 1);
      } else if ReadLine(line).Ok? {
        LinesAreReadInOrder(Set(cli, ReadLine(line).value), first[1..], rest, lineNo + 1);
      }
    }
  }

  /** A file is its lines in order on top of the defaults: no flag, no item, half a second of grace. */
  lemma ContentIsRead(line: string, content: string)
    requires '\n' !in line && '\r' !in line
    ensures ReadContent("") == Ok(Cli(false, None, 0, false, false, [], 500, false, [], [], false, false, [], [],
      false, false, [], [], false, false, false, false, false, false, []))
    ensures ReadContent(line + "\n" + content)
         == var first := ReadLines(DEFAULT, [line], 1);
            if first.Ok? then ReadLines(first.value, Lines(content), 2) else first
  {
    LinesOfLine(line, content);
    LinesAreReadInOrder(DEFAULT, [line], Lines(content), 1);
  }
}
