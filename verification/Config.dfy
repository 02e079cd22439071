/** The configuration file (src/cli.rs): printing the options in force, and reading them back line
    by line. */
module Config {
  import opened Results
  import opened Text
  import opened SignalNames

  type u8 = x: int | 0 <= x < 0x100
  type u16 = x: int | 0 <= x < 0x1_0000
  type u64 = x: int | 0 <= x < 0x1_0000_0000_0000_0000

  const U8_MAX: nat := 0xFF
  const U16_MAX: nat := 0xFFFF
  const U64_MAX: nat := 0xFFFF_FFFF_FFFF_FFFF
  const DEFAULT_GRACE_MS: u64 := 500

  datatype WritePreset = Tmp | Runtime {
    function Name(): string {
      if Tmp? then "tmp" else "runtime"
    }
  }

  datatype Cli = Cli(
    subreaper: bool,
    pdeath: Option<string>,
    verbosity: u8,
    warnOnReap: bool,
    pgroupKill: bool,
    remapExit: seq<u8>,
    graceMs: u64,
    writeRestrict: bool,
    writeAllow: seq<string>,
    writePreset: seq<WritePreset>,
    restrictWarnOnly: bool,
    writeNoDev: bool,
    bindTcpAllow: seq<u16>,
    connectTcpAllow: seq<u16>,
    scopeSignals: bool,
    scopeAbstractUnix: bool,
    execAllow: seq<string>,
    deviceIoctlAllow: seq<string>,
    expandEnv: bool,
    explain: bool,
    printConfig: bool,
    writeConfig: bool,
    checkConfig: bool,
    noConfig: bool,
    cmd: seq<string>)

  const DEFAULT: Cli := Cli(false, None, 0, false, false, [], DEFAULT_GRACE_MS, false, [], [], false, false, [], [],
    false, false, [], [], false, false, false, false, false, false, [])

  /** One option of the file. */
  datatype Setting =
    | Subreaper
    | Pdeath(signal: string)
    | Verbosity(level: u8)
    | WarnOnReap
    | PgroupKill
    | RemapExit(code: u8)
    | GraceMs(ms: u64)
    | WriteRestrict
    | WriteAllow(path: string)
    | Preset(preset: WritePreset)
    | RestrictWarnOnly
    | WriteNoDev
    | BindTcpAllow(port: u16)
    | ConnectTcpAllow(port: u16)
    | ScopeSignals
    | ScopeAbstractUnix
    | ExecAllow(path: string)
    | DeviceIoctlAllow(path: string)
    | ExpandEnv

  datatype Problem =
    | Empty
    | Newlines
    | Nul
    | NotAbsolute
    | BadSignal
    | BadPort
    | BadNumber
    | BadVerbosity
    | BadPreset
    | TakesNoValue
    | RequiresValue
    | CommandLineOnly
    | UnknownOption

  datatype ConfigError = At(lineNo: nat, problem: Problem)

  // ---------------------------------------------------------------- printing

  function ValidateConfigValue(value: string): Result<string, Problem> {
    if value == "" || value != Trim(value) then Err(Empty)
    else if '\n' in value || '\r' in value then Err(Newlines)
    else if '\0' in value then Err(Nul)
    else Ok(value)
  }

  predicate IsAbsolute(path: string) {
    path != "" && path[0] == '/'
  }

  /** The options in printing order, each with the name it is printed under. */
  const KEYS: seq<string> := [
    "subreaper", "pdeath", "verbosity", "warn-on-reap", "pgroup-kill", "remap-exit", "grace-ms", "write-restrict",
    "write-allow", "write-preset", "restrict-warn-only", "write-no-dev", "bind-tcp-allow", "connect-tcp-allow",
    "scope-signals", "scope-abstract-unix", "exec-allow", "device-ioctl-allow", "expand-env"]

  const FIELDS: nat := 19

  function NumberOf(s: Setting): (k: nat)
    ensures k < FIELDS
  {
    match s
    case Subreaper => 0
    case Pdeath(_) => 1
    case Verbosity(_) => 2
    case WarnOnReap => 3
    case PgroupKill => 4
    case RemapExit(_) => 5
    case GraceMs(_) => 6
    case WriteRestrict => 7
    case WriteAllow(_) => 8
    case Preset(_) => 9
    case RestrictWarnOnly => 10
    case WriteNoDev => 11
    case BindTcpAllow(_) => 12
    case ConnectTcpAllow(_) => 13
    case ScopeSignals => 14
    case ScopeAbstractUnix => 15
    case ExecAllow(_) => 16
    case DeviceIoctlAllow(_) => 17
    case ExpandEnv => 18
  }

  /** The options that add an item to a list. */
  predicate IsList(k: nat) {
    k in {5, 8, 9, 12, 13, 16, 17}
  }

  function KeyOf(s: Setting): string {
    KEYS[NumberOf(s)]
  }

  /** The text of an option, before it is checked. */
  function TextOf(s: Setting): Option<string> {
    match s
    case Pdeath(signal) => ParseSignal(signal)
    case Verbosity(level) => Some(Decimal(level))
    case RemapExit(code) => Some(Decimal(code))
    case GraceMs(ms) => Some(Decimal(ms))
    case Preset(preset) => Some(preset.Name())
    case BindTcpAllow(port) => Some(Decimal(port))
    case ConnectTcpAllow(port) => Some(Decimal(port))
    case WriteAllow(path) => Some(path)
    case DeviceIoctlAllow(path) => Some(path)
    case ExecAllow(path) => Some(path)
    case _ => None
  }

  /** Where a path must be absolute; a command name without a slash may be executed too. */
  predicate PathFits(s: Setting) {
    match s
    case WriteAllow(path) => IsAbsolute(path)
    case DeviceIoctlAllow(path) => IsAbsolute(path)
    case ExecAllow(path) => '/' in path ==> IsAbsolute(path)
    case _ => true
  }

  predicate PortFits(s: Setting) {
    (s.BindTcpAllow? || s.ConnectTcpAllow?) ==> s.port != 0
  }

  /** The text after the key, or why the setting cannot be printed. */
  function PrintValue(s: Setting): Result<Option<string>, Problem> {
    if s.Pdeath? && ParseSignal(s.signal).None? then Err(BadSignal)
    else if !PortFits(s) then Err(BadPort)
    else if TextOf(s).None? then Ok(None)
    else
      match ValidateConfigValue(TextOf(s).value)
      case Err(e) => Err(e)
      case Ok(value) => if PathFits(s) then Ok(Some(value)) else Err(NotAbsolute)
  }

  function PrintLine(s: Setting): Result<string, Problem> {
    match PrintValue(s)
    case Err(e) => Err(e)
    case Ok(None) => Ok(KeyOf(s))
    case Ok(Some(value)) => Ok(KeyOf(s) + " " + value)
  }

  function WholeLine(s: Setting): Result<string, Problem> {
    Join(PrintLine(s), Ok("\n"))
  }

  function WholeLines(settings: seq<Setting>): seq<Result<string, Problem>> {
    Each(settings, s => WholeLine(s))
  }

  /** Appends one part after another, up to the first that is a problem. */
  function AppendAll(out: string, parts: seq<Result<string, Problem>>): Result<string, Problem>
    decreases |parts|
  {
    if parts == [] then Ok(out)
    else if parts[0].Err? then parts[0]
    else AppendAll(out + parts[0].value, parts[1..])
  }

  function PrintAll(out: string, settings: seq<Setting>): Result<string, Problem> {
    AppendAll(out, WholeLines(settings))
  }

  function ResolvedVerbosity(cli: Cli): u8 {
    if cli.verbosity < 3 then cli.verbosity else 3
  }

  function Flag(enabled: bool, s: Setting): seq<Setting> {
    if enabled then [s] else []
  }

  function Each<T, U>(items: seq<T>, wrap: T -> U): seq<U> {
    seq(|items|, i requires 0 <= i < |items| => wrap(items[i]))
  }

  /** The settings that the k-th option of the printing order stands for. */
  function Field(cli: Cli, k: nat): seq<Setting> {
    match k
    case 0 => Flag(cli.subreaper, Subreaper)
    case 1 => if cli.pdeath.Some? then [Pdeath(cli.pdeath.value)] else []
    case 2 => Flag(ResolvedVerbosity(cli) > 0, Verbosity(ResolvedVerbosity(cli)))
    case 3 => Flag(cli.warnOnReap, WarnOnReap)
    case 4 => Flag(cli.pgroupKill, PgroupKill)
    case 5 => Each(cli.remapExit, code => RemapExit(code))
    case 6 => Flag(cli.graceMs != DEFAULT_GRACE_MS, GraceMs(cli.graceMs))
    case 7 => Flag(cli.writeRestrict, WriteRestrict)
    case 8 => Each(cli.writeAllow, path => WriteAllow(path))
    case 9 => Each(cli.writePreset, preset => Preset(preset))
    case 10 => Flag(cli.restrictWarnOnly, RestrictWarnOnly)
    case 11 => Flag(cli.writeNoDev, WriteNoDev)
    case 12 => Each(cli.bindTcpAllow, port => BindTcpAllow(port))
    case 13 => Each(cli.connectTcpAllow, port => ConnectTcpAllow(port))
    case 14 => Flag(cli.scopeSignals, ScopeSignals)
    case 15 => Flag(cli.scopeAbstractUnix, ScopeAbstractUnix)
    case 16 => Each(cli.execAllow, path => ExecAllow(path))
    case 17 => Each(cli.deviceIoctlAllow, path => DeviceIoctlAllow(path))
    case 18 => Flag(cli.expandEnv, ExpandEnv)
    case _ => []
  }

  function Fields(cli: Cli): seq<seq<Setting>> {
    seq(FIELDS, k requires 0 <= k < FIELDS => Field(cli, k))
  }

  function Flatten<T>(parts: seq<seq<T>>): seq<T> {
    if parts == [] then [] else parts[0] + Flatten(parts[1..])
  }

  function Settings(cli: Cli): seq<Setting> {
    Flatten(Fields(cli))
  }

  // ---------------------------------------------------------------- reading

  function SplitConfigLine(line: string): (string, Option<string>) {
    var idx := FirstWhitespace(line);
    var value := Trim(line[idx..]);
    var rawKey := line[..idx];
    var key := if |rawKey| > 2 && rawKey[..2] == "--" then rawKey[2..] else rawKey;
    (key, if idx == |line| || value == "" then None else Some(value))
  }

  function ConfigValue(value: Option<string>): Result<string, Problem> {
    match value
    case None => Err(RequiresValue)
    case Some(v) =>
      if '\n' in v || '\r' in v then Err(Newlines)
      else if '\0' in v then Err(Nul)
      else Ok(v)
  }

  function ReadFlag(value: Option<string>, s: Setting): Result<Setting, Problem> {
    if value.Some? then Err(TakesNoValue) else Ok(s)
  }

  function ReadString(value: Option<string>, wrap: string -> Setting): Result<Setting, Problem> {
    match ConfigValue(value)
    case Err(e) => Err(e)
    case Ok(v) => Ok(wrap(v))
  }

  function ReadNumber(value: Option<string>, max: nat): (r: Result<nat, Problem>)
    ensures r.Ok? ==> r.value <= max
  {
    match ConfigValue(value)
    case Err(e) => Err(e)
    case Ok(v) => if ParseUnsigned(v, max).Some? then Ok(ParseUnsigned(v, max).value) else Err(BadNumber)
  }

  function ReadSignal(value: Option<string>): Result<Setting, Problem> {
    match ConfigValue(value)
    case Err(e) => Err(e)
    case Ok(v) => if ParseSignal(v).Some? then Ok(Pdeath(ParseSignal(v).value)) else Err(BadSignal)
  }

  function ReadVerbosity(value: Option<string>): Result<Setting, Problem> {
    match ReadNumber(value, U8_MAX)
    case Err(e) => Err(e)
    case Ok(level) => if level > 3 then Err(BadVerbosity) else Ok(Verbosity(level))
  }

  function ReadPort(value: Option<string>): Result<u16, Problem> {
    match ReadNumber(value, U16_MAX)
    case Err(e) => Err(e)
    case Ok(port) => if port == 0 then Err(BadPort) else Ok(port)
  }

  function ReadPreset(value: Option<string>): Result<Setting, Problem> {
    match ConfigValue(value)
    case Err(e) => Err(e)
    case Ok(v) => if v == "tmp" then Ok(Preset(Tmp)) else if v == "runtime" then Ok(Preset(Runtime)) else Err(BadPreset)
  }

  const COMMAND_LINE_ONLY: set<string> :=
    {"explain", "print-config", "write-config", "check-config", "help", "version", "no-config"}

  /** The option that a key names: some have a second name. */
  function OptionNumber(key: string): Result<nat, Problem> {
    if key == "subreaper" then Ok(0)
    else if key == "pdeath" || key == "parent-death-signal" then Ok(1)
    else if key == "verbosity" then Ok(2)
    else if key == "warn-on-reap" then Ok(3)
    else if key == "pgroup-kill" then Ok(4)
    else if key == "remap-exit" then Ok(5)
    else if key == "grace-ms" then Ok(6)
    else if key == "write-restrict" then Ok(7)
    else if key == "write-allow" then Ok(8)
    else if key == "write-preset" then Ok(9)
    else if key == "restrict-warn-only" then Ok(10)
    else if key == "write-no-dev" then Ok(11)
    else if key == "bind-tcp-allow" then Ok(12)
    else if key == "connect-tcp-allow" then Ok(13)
    else if key == "scope-signals" then Ok(14)
    else if key == "scope-abstract-unix" then Ok(15)
    else if key == "exec-allow" then Ok(16)
    else if key == "device-ioctl-allow" then Ok(17)
    else if key == "expand-env" then Ok(18)
    else if key in COMMAND_LINE_ONLY then Err(CommandLineOnly)
    else Err(UnknownOption)
  }

  function ReadOption(k: nat, value: Option<string>): Result<Setting, Problem> {
    match k
    case 0 => ReadFlag(value, Subreaper)
    case 1 => ReadSignal(value)
    case 2 => ReadVerbosity(value)
    case 3 => ReadFlag(value, WarnOnReap)
    case 4 => ReadFlag(value, PgroupKill)
    case 5 => (match ReadNumber(value, U8_MAX) case Ok(code) => Ok(RemapExit(code)) case Err(e) => Err(e))
    case 6 => (match ReadNumber(value, U64_MAX) case Ok(ms) => Ok(GraceMs(ms)) case Err(e) => Err(e))
    case 7 => ReadFlag(value, WriteRestrict)
    case 8 => ReadString(value, path => WriteAllow(path))
    case 9 => ReadPreset(value)
    case 10 => ReadFlag(value, RestrictWarnOnly)
    case 11 => ReadFlag(value, WriteNoDev)
    case 12 => (match ReadPort(value) case Ok(port) => Ok(BindTcpAllow(port)) case Err(e) => Err(e))
    case 13 => (match ReadPort(value) case Ok(port) => Ok(ConnectTcpAllow(port)) case Err(e) => Err(e))
    case 14 => ReadFlag(value, ScopeSignals)
    case 15 => ReadFlag(value, ScopeAbstractUnix)
    case 16 => ReadString(value, path => ExecAllow(path))
    case 17 => ReadString(value, path => DeviceIoctlAllow(path))
    case 18 => ReadFlag(value, ExpandEnv)
    case _ => Err(UnknownOption)
  }

  /** The setting of one line. */
  function ReadSetting(key: string, value: Option<string>): Result<Setting, Problem> {
    match OptionNumber(key)
    case Err(e) => Err(e)
    case Ok(k) => ReadOption(k, value)
  }

  /** A flag is set, a list grows, any other option is replaced. */
  function Set(cli: Cli, s: Setting): Cli {
    match s
    case Subreaper => cli.(subreaper := true)
    case Pdeath(signal) => cli.(pdeath := Some(signal))
    case Verbosity(level) => cli.(verbosity := level)
    case WarnOnReap => cli.(warnOnReap := true)
    case PgroupKill => cli.(pgroupKill := true)
    case RemapExit(code) => cli.(remapExit := cli.remapExit + [code])
    case GraceMs(ms) => cli.(graceMs := ms)
    case WriteRestrict => cli.(writeRestrict := true)
    case WriteAllow(path) => cli.(writeAllow := cli.writeAllow + [path])
    case Preset(preset) => cli.(writePreset := cli.writePreset + [preset])
    case RestrictWarnOnly => cli.(restrictWarnOnly := true)
    case WriteNoDev => cli.(writeNoDev := true)
    case BindTcpAllow(port) => cli.(bindTcpAllow := cli.bindTcpAllow + [port])
    case ConnectTcpAllow(port) => cli.(connectTcpAllow := cli.connectTcpAllow + [port])
    case ScopeSignals => cli.(scopeSignals := true)
    case ScopeAbstractUnix => cli.(scopeAbstractUnix := true)
    case ExecAllow(path) => cli.(execAllow := cli.execAllow + [path])
    case DeviceIoctlAllow(path) => cli.(deviceIoctlAllow := cli.deviceIoctlAllow + [path])
    case ExpandEnv => cli.(expandEnv := true)
  }

  predicate IsSkipped(line: string) {
    line == "" || line[0] == '#'
  }

  function ReadLine(line: string): Result<Setting, Problem> {
    var (key, value) := SplitConfigLine(line);
    ReadSetting(key, value)
  }

  /** What the remaining lines do to `cli`; the first of them has number `lineNo`. */
  function ReadLines(cli: Cli, lines: seq<string>, lineNo: nat): Result<Cli, ConfigError>
    decreases |lines|
  {
    if lines == [] then Ok(cli)
    else
      var line := Trim(lines[0]);
      if IsSkipped(line) then ReadLines(cli, lines[1..], lineNo + 1)
      else
        match ReadLine(line)
        case Err(e) => Err(At(lineNo, e))
        case Ok(s) => ReadLines(Set(cli, s), lines[1..], lineNo + 1)
  }

  function ReadContent(content: string): Result<Cli, ConfigError> {
    ReadLines(DEFAULT, Lines(content), 1)
  }

  // ---------------------------------------------------------------- a printed line reads back

  /** The setting that a printed setting reads back as. */
  function Canonical(s: Setting): Setting {
    if s.Pdeath? && ParseSignal(s.signal).Some? then Pdeath(ParseSignal(s.signal).value) else s
  }

  predicate IsKeyChar(c: char) {
    'a' <= c <= 'z' || c == '-'
  }

  lemma ListKeysArePlain(k: nat)
    requires IsList(k)
    ensures IsPlainKey(KEYS[k])
  {
  }

  lemma SwitchKeysArePlain(k: nat)
    requires k < FIELDS && !IsList(k)
    ensures IsPlainKey(KEYS[k])
  {
  }

  lemma KeysArePlain(s: Setting)
    ensures IsPlainKey(KeyOf(s))
  {
    hide IsPlainKey;
    if IsList(NumberOf(s)) {
      ListKeysArePlain(NumberOf(s));
    } else {
      SwitchKeysArePlain(NumberOf(s));
    }
  }

  /** A value as it is printed: not empty, trimmed, on one line. */
  predicate IsPrintable(value: string) {
    value != "" && IsTrimmed(value) && '\n' !in value && '\r' !in value && '\0' !in value
  }

  lemma ValidatedExactly(value: string)
    ensures ValidateConfigValue(value) == Ok(value) <==> IsPrintable(value)
    ensures ValidateConfigValue(value).Ok? ==> IsPrintable(value)
  {
    TrimTrims(value);
  }

  lemma SplitsAtTheSpace(key: string, value: Option<string>)
    requires key != "" && key[0] != '-' && forall c <- key :: IsKeyChar(c)
    requires value.Some? ==> value.value != "" && IsTrimmed(value.value)
    ensures SplitConfigLine(key + if value.Some? then " " + value.value else "") == (key, value)
  {
    var rest := if value.Some? then " " + value.value else "";
    FirstWhitespaceAfter(key, rest);
    assert (key + rest)[..|key|] == key && (key + rest)[|key|..] == rest;
    if value.Some? {
      TrimAfterSpace(value.value);
    }
  }

  lemma KeysAreDistinct(k: nat)
    requires k < FIELDS
    ensures OptionNumber(KEYS[k]) == Ok(k)
  {
  }

  lemma PrintedNumberReads(n: nat, max: nat)
    requires n <= max && IsPrintable(Decimal(n))
    ensures ReadNumber(Some(Decimal(n)), max) == Ok(n)
  {
    ParseDecimal(n, max);
  }

  lemma PrintedPresetReads(preset: WritePreset)
    requires IsPrintable(preset.Name())
    ensures ReadPreset(Some(preset.Name())) == Ok(Preset(preset))
  {
  }

  /** What can be printed, and that nothing else is printed in its place. */
  lemma PrintsExactly(s: Setting)
    ensures PrintValue(s).Ok? <==>
      && (s.Pdeath? ==> ParseSignal(s.signal).Some?)
      && PortFits(s) && PathFits(s)
      && (TextOf(s).Some? ==> IsPrintable(TextOf(s).value))
    ensures PrintValue(s).Ok? ==> PrintValue(s).value == TextOf(s)
  {
    if TextOf(s).Some? {
      ValidatedExactly(TextOf(s).value);
    }
  }

  lemma SignalReads(raw: string, name: string)
    requires ParseSignal(raw) == Some(name) && IsPrintable(name)
    ensures ReadSignal(Some(name)) == Ok(Pdeath(name))
  {
    ParsedSignalIsCanonical(raw, name);
  }

  lemma PortReads(port: u16)
    requires port != 0 && IsPrintable(Decimal(port))
    ensures ReadPort(Some(Decimal(port))) == Ok(port)
  {
    PrintedNumberReads(port, U16_MAX);
  }

  predicate IsNumeric(s: Setting) {
    s.Verbosity? || s.RemapExit? || s.GraceMs?
  }

  lemma NumericTextReads(s: Setting, value: string)
    requires TextOf(s) == Some(value) && IsPrintable(value) && IsNumeric(s) && (s.Verbosity? ==> s.level <= 3)
    ensures ReadOption(NumberOf(s), Some(value)) == Ok(s)
  {
    match s
    case Verbosity(level) => PrintedNumberReads(level, U8_MAX);
    case RemapExit(code) => PrintedNumberReads(code, U8_MAX);
    case GraceMs(ms) => PrintedNumberReads(ms, U64_MAX);
  }

  lemma PathTextReads(s: Setting)
    requires HasPath(s) && IsPrintable(s.path)
    ensures ReadOption(NumberOf(s), Some(s.path)) == Ok(s)
  {
    hide ReadPort, ReadSignal, ReadPreset, ReadNumber, ReadFlag, ReadVerbosity;
  }

  lemma TextReads(s: Setting, value: string)
    requires TextOf(s) == Some(value) && IsPrintable(value) && !IsNumeric(s) && !HasPath(s)
    requires PortFits(s)
    ensures ReadOption(NumberOf(s), Some(value)) == Ok(Canonical(s))
  {
    hide ReadPort, ReadSignal, ReadPreset, ReadNumber, ParseSignal, Decimal;
    match s
    case Pdeath(signal) => SignalReads(signal, value);
    case BindTcpAllow(port) => PortReads(port);
    case ConnectTcpAllow(port) => PortReads(port);
    case Preset(preset) => PrintedPresetReads(preset);
  }

  function LineOf(key: string, value: Option<string>): string {
    key + if value.Some? then " " + value.value else ""
  }

  predicate IsPlainKey(key: string) {
    && key != "" && 'a' <= key[0] <= 'z' && 'a' <= key[|key| - 1] <= 'z'
    && forall c <- key :: IsKeyChar(c)
  }

  /** A printed line is one line, and not a comment. */
  lemma LineIsWhole(key: string, value: Option<string>)
    requires IsPlainKey(key) && (value.Some? ==> IsPrintable(value.value))
    ensures var line := LineOf(key, value);
      '\n' !in line && '\r' !in line && Trim(line) == line && !IsSkipped(line)
  {
    TrimTrims(LineOf(key, value));
  }

  lemma LineReads(key: string, value: Option<string>, s: Setting)
    requires IsPlainKey(key) && (value.Some? ==> IsPrintable(value.value))
    requires ReadSetting(key, value) == Ok(s)
    ensures ReadLine(LineOf(key, value)) == Ok(s)
  {
    SplitsAtTheSpace(key, value);
  }

  lemma PrintedSettingReads(s: Setting, value: Option<string>)
    requires PrintValue(s) == Ok(value) && (s.Verbosity? ==> s.level <= 3)
    ensures ReadSetting(KeyOf(s), value) == Ok(Canonical(s))
    ensures value.Some? ==> IsPrintable(value.value)
  {
    KeysAreDistinct(NumberOf(s));
    PrintsExactly(s);
    if value.Some? {
      if IsNumeric(s) {
        NumericTextReads(s, value.value);
      } else if HasPath(s) {
        PathTextReads(s);
      } else {
        TextReads(s, value.value);
      }
    }
  }

  /** Every line that can be printed is a line of its own, not a comment, and reads back. */
  lemma PrintedLineReads(s: Setting, line: string)
    requires PrintLine(s) == Ok(line) && (s.Verbosity? ==> s.level <= 3)
    ensures '\n' !in line && '\r' !in line && Trim(line) == line && !IsSkipped(line)
    ensures ReadLine(line) == Ok(Canonical(s))
  {
    var value := PrintValue(s).value;
    KeysArePlain(s);
    PrintedSettingReads(s, value);
    LineIsWhole(KeyOf(s), value);
    LineReads(KeyOf(s), value, Canonical(s));
    assert line == LineOf(KeyOf(s), value);
  }

  // ---------------------------------------------------------------- a printed file reads back

  function SetAll(cli: Cli, settings: seq<Setting>): Cli
    decreases |settings|
  {
    if settings == [] then cli else SetAll(Set(cli, Canonical(settings[0])), settings[1..])
  }

  predicate LevelsFit(settings: seq<Setting>) {
    forall s <- settings :: s.Verbosity? ==> s.level <= 3
  }

  function Join(a: Result<string, Problem>, b: Result<string, Problem>): Result<string, Problem> {
    if a.Err? then a else if b.Err? then b else Ok(a.value + b.value)
  }

  function Concat(parts: seq<Result<string, Problem>>): Result<string, Problem> {
    if parts == [] then Ok("") else Join(parts[0], Concat(parts[1..]))
  }

  /** The text of the settings, line after line. */
  function Body(settings: seq<Setting>): Result<string, Problem> {
    Concat(WholeLines(settings))
  }

  lemma {:induction false} ConcatSplits(a: seq<Result<string, Problem>>, b: seq<Result<string, Problem>>)
    ensures Concat(a + b) == Join(Concat(a), Concat(b))
    decreases |a|
  {
    if a == [] {
      assert a + b == b;
      if Concat(b).Ok? {
        assert "" + Concat(b).value == Concat(b).value;
      }
    } else {
      assert (a + b)[1..] == a[1..] + b;
      ConcatSplits(a[1..], b);
      if a[0].Ok? && Concat(a[1..]).Ok? && Concat(b).Ok? {
        var x, y, z := a[0].value, Concat(a[1..]).value, Concat(b).value;
        assert x + (y + z) == x + y + z;
      }
    }
  }

  lemma BodyUncons(settings: seq<Setting>)
    requires settings != []
    ensures Body(settings) == Join(WholeLine(settings[0]), Body(settings[1..]))
  {
    EachUncons(settings, s => WholeLine(s));
    assert WholeLines(settings)[1..] == WholeLines(settings[1..]);
  }

  lemma {:induction false} AppendAllConcatenates(out: string, parts: seq<Result<string, Problem>>)
    ensures AppendAll(out, parts) == Join(Ok(out), Concat(parts))
    decreases |parts|
  {
    if parts == [] {
      assert out + "" == out;
    } else if parts[0].Ok? {
      AppendAllConcatenates(out + parts[0].value, parts[1..]);
      if Concat(parts[1..]).Ok? {
        assert out + parts[0].value + Concat(parts[1..]).value == out + (parts[0].value + Concat(parts[1..]).value);
      }
    }
  }

  lemma {:induction false} PrintedSettingsRead(cli: Cli, settings: seq<Setting>, text: string, lineNo: nat)
    requires Body(settings) == Ok(text) && LevelsFit(settings)
    ensures ReadLines(cli, Lines(text), lineNo) == Ok(SetAll(cli, settings))
    decreases |settings|
  {
    if settings != [] {
      var s := settings[0];
      BodyUncons(settings);
      var line := PrintLine(s).value;
      var rest := Body(settings[1..]).value;
      PrintedLineReads(s, line);
      LinesOfLine(line, rest);
      assert Lines(text)[1..] == Lines(rest);
      PrintedSettingsRead(Set(cli, Canonical(s)), settings[1..], rest, lineNo + 1);
    }
  }

  /** Only the name of the signal and an excessive verbosity change; command and modes are not kept. */
  function Normalize(cli: Cli): Cli {
    cli.(
      pdeath := match cli.pdeath { case Some(raw) => ParseSignal(raw) case None => None },
      verbosity := ResolvedVerbosity(cli),
      explain := false, printConfig := false, writeConfig := false, checkConfig := false, noConfig := false,
      cmd := [])
  }

  /** The defaults with the first `k` options in printing order taken from `cli`. */
  function After(cli: Cli, k: nat): Cli {
    DEFAULT.(
      subreaper := k > 0 && cli.subreaper,
      pdeath := if k > 1 then cli.pdeath else None,
      verbosity := if k > 2 then cli.verbosity else 0,
      warnOnReap := k > 3 && cli.warnOnReap,
      pgroupKill := k > 4 && cli.pgroupKill,
      remapExit := if k > 5 then cli.remapExit else [],
      graceMs := if k > 6 then cli.graceMs else DEFAULT_GRACE_MS,
      writeRestrict := k > 7 && cli.writeRestrict,
      writeAllow := if k > 8 then cli.writeAllow else [],
      writePreset := if k > 9 then cli.writePreset else [],
      restrictWarnOnly := k > 10 && cli.restrictWarnOnly,
      writeNoDev := k > 11 && cli.writeNoDev,
      bindTcpAllow := if k > 12 then cli.bindTcpAllow else [],
      connectTcpAllow := if k > 13 then cli.connectTcpAllow else [],
      scopeSignals := k > 14 && cli.scopeSignals,
      scopeAbstractUnix := k > 15 && cli.scopeAbstractUnix,
      execAllow := if k > 16 then cli.execAllow else [],
      deviceIoctlAllow := if k > 17 then cli.deviceIoctlAllow else [],
      expandEnv := k > 18 && cli.expandEnv)
  }

  lemma EachSplits<T, U>(a: seq<T>, b: seq<T>, wrap: T -> U)
    ensures Each(a + b, wrap) == Each(a, wrap) + Each(b, wrap)
  {
  }

  lemma EachUncons<T, U>(items: seq<T>, wrap: T -> U)
    requires items != []
    ensures Each(items, wrap) == [wrap(items[0])] + Each(items[1..], wrap)
  {
  }

  /** Settings applied one by one pass through these states. */
  lemma {:induction false} SetAllSteps(settings: seq<Setting>, states: seq<Cli>)
    requires |states| == |settings| + 1
    requires forall n :: 0 <= n < |settings| ==> Set(states[n], Canonical(settings[n])) == states[n + 1]
    ensures SetAll(states[0], settings) == states[|settings|]
  {
    if settings != [] {
      SetAllSteps(settings[1..], states[1..]);
    }
  }

  // Lists: their items are added one by one.

  lemma RemapExitsRead(cli: Cli)
    ensures SetAll(After(cli, 5), Field(cli, 5)) == After(cli, 6)
  {
    hide SetAll, ParseSignal;
    var len := |cli.remapExit|;
    SetAllSteps(Field(cli, 5),
      seq(len + 1, n requires 0 <= n <= len => After(cli, 5).(remapExit := cli.remapExit[..n])));
  }

  lemma WriteAllowsRead(cli: Cli)
    ensures SetAll(After(cli, 8), Field(cli, 8)) == After(cli, 9)
  {
    hide SetAll, ParseSignal;
    var len := |cli.writeAllow|;
    SetAllSteps(Field(cli, 8),
      seq(len + 1, n requires 0 <= n <= len => After(cli, 8).(writeAllow := cli.writeAllow[..n])));
  }

  lemma PresetsRead(cli: Cli)
    ensures SetAll(After(cli, 9), Field(cli, 9)) == After(cli, 10)
  {
    hide SetAll, ParseSignal;
    var len := |cli.writePreset|;
    SetAllSteps(Field(cli, 9),
      seq(len + 1, n requires 0 <= n <= len => After(cli, 9).(writePreset := cli.writePreset[..n])));
  }

  lemma BindPortsRead(cli: Cli)
    ensures SetAll(After(cli, 12), Field(cli, 12)) == After(cli, 13)
  {
    hide SetAll, ParseSignal;
    var len := |cli.bindTcpAllow|;
    SetAllSteps(Field(cli, 12),
      seq(len + 1, n requires 0 <= n <= len => After(cli, 12).(bindTcpAllow := cli.bindTcpAllow[..n])));
  }

  lemma ConnectPortsRead(cli: Cli)
    ensures SetAll(After(cli, 13), Field(cli, 13)) == After(cli, 14)
  {
    hide SetAll, ParseSignal;
    var len := |cli.connectTcpAllow|;
    SetAllSteps(Field(cli, 13),
      seq(len + 1, n requires 0 <= n <= len => After(cli, 13).(connectTcpAllow := cli.connectTcpAllow[..n])));
  }

  lemma ExecAllowsRead(cli: Cli)
    ensures SetAll(After(cli, 16), Field(cli, 16)) == After(cli, 17)
  {
    hide SetAll, ParseSignal;
    var len := |cli.execAllow|;
    SetAllSteps(Field(cli, 16),
      seq(len + 1, n requires 0 <= n <= len => After(cli, 16).(execAllow := cli.execAllow[..n])));
  }

  lemma DeviceIoctlsRead(cli: Cli)
    ensures SetAll(After(cli, 17), Field(cli, 17)) == After(cli, 18)
  {
    hide SetAll, ParseSignal;
    var len := |cli.deviceIoctlAllow|;
    SetAllSteps(Field(cli, 17),
      seq(len + 1, n requires 0 <= n <= len => After(cli, 17).(deviceIoctlAllow := cli.deviceIoctlAllow[..n])));
  }

  lemma ListReads(cli: Cli, k: nat)
    requires IsList(k)
    ensures SetAll(After(cli, k), Field(cli, k)) == After(cli, k + 1)
  {
    hide SetAll, After, Field;
    match k
    case 5 => RemapExitsRead(cli);
    case 8 => WriteAllowsRead(cli);
    case 9 => PresetsRead(cli);
    case 12 => BindPortsRead(cli);
    case 13 => ConnectPortsRead(cli);
    case 16 => ExecAllowsRead(cli);
    case 17 => DeviceIoctlsRead(cli);
  }

  // Flags, and the grace period, which is printed only where it is not the default.

  lemma FlagReads(c: Cli, enabled: bool, s: Setting)
    requires !s.Pdeath?
    ensures SetAll(c, Flag(enabled, s)) == if enabled then Set(c, s) else c
  {
    if enabled {
      assert Flag(enabled, s)[1..] == [];
    }
  }

  lemma SubreaperReads(cli: Cli)
    ensures SetAll(After(cli, 0), Field(cli, 0)) == After(cli, 1)
  {
    FlagReads(After(cli, 0), cli.subreaper, Subreaper);
  }

  lemma WarnOnReapReads(cli: Cli)
    ensures SetAll(After(cli, 3), Field(cli, 3)) == After(cli, 4)
  {
    FlagReads(After(cli, 3), cli.warnOnReap, WarnOnReap);
  }

  lemma PgroupKillReads(cli: Cli)
    ensures SetAll(After(cli, 4), Field(cli, 4)) == After(cli, 5)
  {
    FlagReads(After(cli, 4), cli.pgroupKill, PgroupKill);
  }

  lemma GraceMsReads(cli: Cli)
    ensures SetAll(After(cli, 6), Field(cli, 6)) == After(cli, 7)
  {
    FlagReads(After(cli, 6), cli.graceMs != DEFAULT_GRACE_MS, GraceMs(cli.graceMs));
  }

  lemma WriteRestrictReads(cli: Cli)
    ensures SetAll(After(cli, 7), Field(cli, 7)) == After(cli, 8)
  {
    FlagReads(After(cli, 7), cli.writeRestrict, WriteRestrict);
  }

  lemma RestrictWarnOnlyReads(cli: Cli)
    ensures SetAll(After(cli, 10), Field(cli, 10)) == After(cli, 11)
  {
    FlagReads(After(cli, 10), cli.restrictWarnOnly, RestrictWarnOnly);
  }

  lemma WriteNoDevReads(cli: Cli)
    ensures SetAll(After(cli, 11), Field(cli, 11)) == After(cli, 12)
  {
    FlagReads(After(cli, 11), cli.writeNoDev, WriteNoDev);
  }

  lemma ScopeSignalsReads(cli: Cli)
    ensures SetAll(After(cli, 14), Field(cli, 14)) == After(cli, 15)
  {
    FlagReads(After(cli, 14), cli.scopeSignals, ScopeSignals);
  }

  lemma ScopeAbstractUnixReads(cli: Cli)
    ensures SetAll(After(cli, 15), Field(cli, 15)) == After(cli, 16)
  {
    FlagReads(After(cli, 15), cli.scopeAbstractUnix, ScopeAbstractUnix);
  }

  lemma ExpandEnvReads(cli: Cli)
    ensures SetAll(After(cli, 18), Field(cli, 18)) == After(cli, 19)
  {
    FlagReads(After(cli, 18), cli.expandEnv, ExpandEnv);
  }

  lemma SwitchReads(cli: Cli, k: nat)
    requires k < FIELDS && !IsList(k) && k !in {1, 2}
    ensures SetAll(After(cli, k), Field(cli, k)) == After(cli, k + 1)
  {
    hide SetAll, After, Field;
    match k
    case 0 => SubreaperReads(cli);
    case 3 => WarnOnReapReads(cli);
    case 4 => PgroupKillReads(cli);
    case 6 => GraceMsReads(cli);
    case 7 => WriteRestrictReads(cli);
    case 10 => RestrictWarnOnlyReads(cli);
    case 11 => WriteNoDevReads(cli);
    case 14 => ScopeSignalsReads(cli);
    case 15 => ScopeAbstractUnixReads(cli);
    case 18 => ExpandEnvReads(cli);
  }

  /** The two options that change on the way. */
  lemma ChangingFieldReads(cli: Cli, k: nat)
    requires k in {1, 2} && (cli.pdeath.Some? ==> ParseSignal(cli.pdeath.value).Some?)
    ensures SetAll(After(Normalize(cli), k), Field(cli, k)) == After(Normalize(cli), k + 1)
  {
    hide ParseSignal;
    var c := After(Normalize(cli), k);
    if k == 2 {
      FlagReads(c, ResolvedVerbosity(cli) > 0, Verbosity(ResolvedVerbosity(cli)));
    } else if cli.pdeath.Some? {
      assert [Pdeath(cli.pdeath.value)][1..] == [];
    }
  }

  /** Normalizing leaves the fields of all other options alone. */
  lemma FieldStays(cli: Cli, k: nat)
    requires k != 1 || cli.pdeath.None?
    ensures Field(Normalize(cli), k) == Field(cli, k)
  {
    hide Flag, Each, ParseSignal;
  }

  lemma FieldReads(cli: Cli, k: nat)
    requires k < FIELDS && (cli.pdeath.Some? ==> ParseSignal(cli.pdeath.value).Some?)
    ensures SetAll(After(Normalize(cli), k), Field(cli, k)) == After(Normalize(cli), k + 1)
  {
    hide SetAll, After, Field, Normalize, ParseSignal;
    if k in {1, 2} {
      ChangingFieldReads(cli, k);
    } else {
      FieldStays(cli, k);
      if IsList(k) {
        ListReads(Normalize(cli), k);
      } else {
        SwitchReads(Normalize(cli), k);
      }
    }
  }

  lemma AfterAll(cli: Cli)
    ensures After(Normalize(cli), 0) == DEFAULT
    ensures After(Normalize(cli), FIELDS) == Normalize(cli)
  {
  }

  lemma {:induction false} SetAllSplits(c: Cli, a: seq<Setting>, b: seq<Setting>)
    ensures SetAll(c, a + b) == SetAll(SetAll(c, a), b)
    decreases |a|
  {
    if a == [] {
      assert a + b == b;
    } else {
      assert (a + b)[1..] == a[1..] + b;
      SetAllSplits(Set(c, Canonical(a[0])), a[1..], b);
    }
  }

  lemma {:induction false} SetAllFields(fields: seq<seq<Setting>>, states: seq<Cli>)
    requires |states| == |fields| + 1
    requires forall k :: 0 <= k < |fields| ==> SetAll(states[k], fields[k]) == states[k + 1]
    ensures SetAll(states[0], Flatten(fields)) == states[|fields|]
  {
    if fields != [] {
      SetAllSplits(states[0], fields[0], Flatten(fields[1..]));
      SetAllFields(fields[1..], states[1..]);
    }
  }

  lemma FieldsRead(cli: Cli)
    requires cli.pdeath.Some? ==> ParseSignal(cli.pdeath.value).Some?
    ensures SetAll(After(Normalize(cli), 0), Settings(cli)) == After(Normalize(cli), FIELDS)
  {
    var states := seq(FIELDS + 1, k requires 0 <= k <= FIELDS => After(Normalize(cli), k));
    forall k | 0 <= k < FIELDS
      ensures SetAll(states[k], Fields(cli)[k]) == states[k + 1]
    {
      FieldReads(cli, k);
    }
    SetAllFields(Fields(cli), states);
  }

  // ---------------------------------------------------------------- the round trip

  lemma BodySplits(a: seq<Setting>, b: seq<Setting>)
    ensures Body(a + b) == Join(Body(a), Body(b))
  {
    ConcatSplits(WholeLines(a), WholeLines(b));
    EachSplits(a, b, s => WholeLine(s));
  }

  lemma FieldLevelsFit(cli: Cli, k: nat)
    ensures LevelsFit(Field(cli, k))
  {
  }

  lemma {:induction false} FlattenHas(fields: seq<seq<Setting>>, s: Setting)
    ensures s in Flatten(fields) <==> exists k :: 0 <= k < |fields| && s in fields[k]
  {
    if fields != [] {
      FlattenHas(fields[1..], s);
      if k :| 0 <= k < |fields| && s in fields[k] {
        if k > 0 {
          assert s in fields[1..][k - 1];
        }
      }
    }
  }

  lemma SettingsLevelsFit(cli: Cli)
    ensures LevelsFit(Settings(cli))
  {
    forall s | s in Settings(cli)
      ensures s.Verbosity? ==> s.level <= 3
    {
      FlattenHas(Fields(cli), s);
      var k :| 0 <= k < FIELDS && s in Fields(cli)[k];
      FieldLevelsFit(cli, k);
    }
  }

  lemma PrintsTheSame(s: Setting)
    requires PrintLine(s).Ok?
    ensures PrintLine(Canonical(s)) == PrintLine(s)
  {
    if s.Pdeath? {
      ParsedSignalIsCanonical(s.signal, ParseSignal(s.signal).value);
    }
  }

  lemma SingleBody(s: Setting)
    ensures Body([s]) == WholeLine(s)
  {
    BodyUncons([s]);
    if WholeLine(s).Ok? {
      assert WholeLine(s).value + "" == WholeLine(s).value;
    }
  }

  lemma FieldPrintsTheSame(cli: Cli, k: nat)
    requires Body(Field(cli, k)).Ok?
    ensures Body(Field(Normalize(cli), k)) == Body(Field(cli, k))
  {
    if k != 1 || cli.pdeath.None? {
      FieldStays(cli, k);
    } else {
      SignalPrintsTheSame(cli);
    }
  }

  lemma SignalPrintsTheSame(cli: Cli)
    requires cli.pdeath.Some? && Body([Pdeath(cli.pdeath.value)]).Ok?
    ensures Body(Field(Normalize(cli), 1)) == Body([Pdeath(cli.pdeath.value)])
  {
    var s := Pdeath(cli.pdeath.value);
    SingleBody(s);
    SingleBody(Canonical(s));
    PrintsTheSame(s);
  }

  lemma {:induction false} BodiesAgree(f: seq<seq<Setting>>, g: seq<seq<Setting>>)
    requires |f| == |g| && Body(Flatten(f)).Ok?
    requires forall k :: 0 <= k < |f| && Body(f[k]).Ok? ==> Body(g[k]) == Body(f[k])
    ensures Body(Flatten(g)) == Body(Flatten(f))
  {
    if f != [] {
      BodySplits(f[0], Flatten(f[1..]));
      BodySplits(g[0], Flatten(g[1..]));
      BodiesAgree(f[1..], g[1..]);
    }
  }

  lemma SettingsPrintTheSame(cli: Cli)
    requires Body(Settings(cli)).Ok?
    ensures Body(Settings(Normalize(cli))) == Body(Settings(cli))
  {
    forall k | 0 <= k < FIELDS && Body(Fields(cli)[k]).Ok?
      ensures Body(Fields(Normalize(cli))[k]) == Body(Fields(cli)[k])
    {
      FieldPrintsTheSame(cli, k);
    }
    BodiesAgree(Fields(cli), Fields(Normalize(cli)));
  }

  /** A body exists exactly when each of its lines can be printed. */
  lemma {:induction false} BodyExists(settings: seq<Setting>)
    ensures Body(settings).Ok? <==> forall s <- settings :: PrintLine(s).Ok?
    decreases |settings|
  {
    if settings != [] {
      BodyUncons(settings);
      BodyExists(settings[1..]);
      assert settings == [settings[0]] + settings[1..];
    }
  }

  function ConfigText(cli: Cli): Result<string, Problem> {
    PrintAll("", Settings(cli))
  }

  lemma ConfigTextIsBody(cli: Cli)
    ensures ConfigText(cli) == Body(Settings(cli))
  {
    AppendAllConcatenates("", WholeLines(Settings(cli)));
    if Body(Settings(cli)).Ok? {
      assert "" + Body(Settings(cli)).value == Body(Settings(cli)).value;
    }
  }

  /** Options that can be printed read back unchanged but for the name of the signal and the
      effective verbosity, and what was read back prints the identical text. */
  lemma RoundTrip(cli: Cli, text: string)
    requires ConfigText(cli) == Ok(text)
    ensures ReadContent(text) == Ok(Normalize(cli))
    ensures ConfigText(Normalize(cli)) == Ok(text)
  {
    ConfigTextIsBody(cli);
    ConfigTextIsBody(Normalize(cli));
    SettingsPrintTheSame(cli);
    SettingsLevelsFit(cli);
    if cli.pdeath.Some? {
      SignalWasParsed(cli);
    }
    PrintedSettingsRead(DEFAULT, Settings(cli), text, 1);
    FieldsRead(cli);
    AfterAll(cli);
  }

  lemma SignalWasParsed(cli: Cli)
    requires Body(Settings(cli)).Ok? && cli.pdeath.Some?
    ensures ParseSignal(cli.pdeath.value).Some?
  {
    var s := Pdeath(cli.pdeath.value);
    assert s in Fields(cli)[1];
    FlattenHas(Fields(cli), s);
    BodyExists(Settings(cli));
    assert PrintLine(s).Ok?;
  }

  // ---------------------------------------------------------------- what can be printed and read

  predicate PathsPrint(paths: seq<string>) {
    forall path <- paths :: IsPrintable(path)
  }

  predicate PathsFit(cli: Cli) {
    && (forall path <- cli.writeAllow :: IsAbsolute(path))
    && (forall path <- cli.deviceIoctlAllow :: IsAbsolute(path))
    && (forall path <- cli.execAllow :: '/' in path ==> IsAbsolute(path))
  }

  /** What the parser makes sure of, apart from the form of paths. */
  predicate WellFormed(cli: Cli) {
    && (cli.pdeath.Some? ==> ParseSignal(cli.pdeath.value).Some?)
    && PathsPrint(cli.writeAllow) && PathsPrint(cli.deviceIoctlAllow) && PathsPrint(cli.execAllow)
    && 0 !in cli.bindTcpAllow && 0 !in cli.connectTcpAllow
  }

  lemma DecimalIsPrintable(n: nat)
    ensures IsPrintable(Decimal(n))
  {
    DecimalDigits(n);
    var s := Decimal(n);
    assert s[0] in s && s[|s| - 1] in s;
  }

  predicate HasPath(s: Setting) {
    s.WriteAllow? || s.DeviceIoctlAllow? || s.ExecAllow?
  }

  /** Only paths can have a text that the file format cannot hold. */
  lemma OtherTextsPrint(s: Setting)
    requires !HasPath(s) && TextOf(s).Some?
    ensures IsPrintable(TextOf(s).value)
  {
    match s
    case Pdeath(signal) => ParsedSignalIsCanonical(signal, ParseSignal(signal).value);
    case Verbosity(level) => DecimalIsPrintable(level);
    case RemapExit(code) => DecimalIsPrintable(code);
    case GraceMs(ms) => DecimalIsPrintable(ms);
    case BindTcpAllow(port) => DecimalIsPrintable(port);
    case ConnectTcpAllow(port) => DecimalIsPrintable(port);
    case Preset(_) =>
  }

  predicate IsAccepted(s: Setting) {
    && (s.Pdeath? ==> ParseSignal(s.signal).Some?)
    && PortFits(s) && PathFits(s)
    && (HasPath(s) ==> IsPrintable(s.path))
  }

  lemma LinePrintsExactly(s: Setting)
    ensures PrintLine(s).Ok? <==> IsAccepted(s)
  {
    PrintsExactly(s);
    if !HasPath(s) && TextOf(s).Some? {
      OtherTextsPrint(s);
    }
  }

  /** The options whose values are paths. */
  predicate IsPathList(k: nat) {
    k in {8, 16, 17}
  }

  lemma FieldIsAccepted(cli: Cli, k: nat, s: Setting)
    requires WellFormed(cli) && PathsFit(cli) && s in Field(cli, k)
    ensures IsAccepted(s)
  {
    if IsPathList(k) {
      PathFieldIsAccepted(cli, k, s);
    }
  }

  lemma PathFieldIsAccepted(cli: Cli, k: nat, s: Setting)
    requires WellFormed(cli) && PathsFit(cli) && s in Field(cli, k) && IsPathList(k)
    ensures IsAccepted(s)
  {
    if k == 8 {
      assert s.path in cli.writeAllow;
    } else if k == 16 {
      assert s.path in cli.execAllow;
    } else {
      assert s.path in cli.deviceIoctlAllow;
    }
  }

  lemma SettingOfField(cli: Cli, k: nat, s: Setting)
    requires k < FIELDS && s in Field(cli, k)
    ensures s in Settings(cli)
  {
    assert s in Fields(cli)[k];
    FlattenHas(Fields(cli), s);
  }

  lemma WritablePathWasPrinted(cli: Cli, path: string)
    requires Body(Settings(cli)).Ok? && path in cli.writeAllow
    ensures IsPrintable(path) && IsAbsolute(path)
  {
    BodyExists(Settings(cli));
    EachHas(cli.writeAllow, path, p => WriteAllow(p));
    SettingOfField(cli, 8, WriteAllow(path));
    LinePrintsExactly(WriteAllow(path));
  }

  lemma DevicePathWasPrinted(cli: Cli, path: string)
    requires Body(Settings(cli)).Ok? && path in cli.deviceIoctlAllow
    ensures IsPrintable(path) && IsAbsolute(path)
  {
    BodyExists(Settings(cli));
    EachHas(cli.deviceIoctlAllow, path, p => DeviceIoctlAllow(p));
    SettingOfField(cli, 17, DeviceIoctlAllow(path));
    LinePrintsExactly(DeviceIoctlAllow(path));
  }

  lemma ExecPathWasPrinted(cli: Cli, path: string)
    requires Body(Settings(cli)).Ok? && path in cli.execAllow
    ensures IsPrintable(path) && ('/' in path ==> IsAbsolute(path))
  {
    BodyExists(Settings(cli));
    EachHas(cli.execAllow, path, p => ExecAllow(p));
    SettingOfField(cli, 16, ExecAllow(path));
    LinePrintsExactly(ExecAllow(path));
  }

  lemma EachHas<T, U>(items: seq<T>, item: T, wrap: T -> U)
    requires item in items
    ensures wrap(item) in Each(items, wrap)
  {
    var i :| 0 <= i < |items| && items[i] == item;
    assert Each(items, wrap)[i] == wrap(item);
  }

  lemma PortsWerePrinted(cli: Cli)
    requires Body(Settings(cli)).Ok?
    ensures 0 !in cli.bindTcpAllow && 0 !in cli.connectTcpAllow
  {
    BodyExists(Settings(cli));
    if 0 in cli.bindTcpAllow {
      EachHas(cli.bindTcpAllow, 0, p => BindTcpAllow(p));
      SettingOfField(cli, 12, BindTcpAllow(0));
      LinePrintsExactly(BindTcpAllow(0));
    }
    if 0 in cli.connectTcpAllow {
      EachHas(cli.connectTcpAllow, 0, p => ConnectTcpAllow(p));
      SettingOfField(cli, 13, ConnectTcpAllow(0));
      LinePrintsExactly(ConnectTcpAllow(0));
    }
  }

  /** Exactly these options can be printed. */
  lemma PrintableExactly(cli: Cli)
    ensures ConfigText(cli).Ok? <==> WellFormed(cli) && PathsFit(cli)
  {
    ConfigTextIsBody(cli);
    BodyExists(Settings(cli));
    if Body(Settings(cli)).Ok? {
      if cli.pdeath.Some? {
        SignalWasParsed(cli);
      }
      PortsWerePrinted(cli);
      forall path <- cli.writeAllow
        ensures IsPrintable(path) && IsAbsolute(path)
      {
        WritablePathWasPrinted(cli, path);
      }
      forall path <- cli.deviceIoctlAllow
        ensures IsPrintable(path) && IsAbsolute(path)
      {
        DevicePathWasPrinted(cli, path);
      }
      forall path <- cli.execAllow
        ensures IsPrintable(path) && ('/' in path ==> IsAbsolute(path))
      {
        ExecPathWasPrinted(cli, path);
      }
    } else if WellFormed(cli) && PathsFit(cli) {
      forall s | s in Settings(cli)
        ensures PrintLine(s).Ok?
      {
        FlattenHas(Fields(cli), s);
        var k :| 0 <= k < FIELDS && s in Fields(cli)[k];
        FieldIsAccepted(cli, k, s);
        LinePrintsExactly(s);
      }
    }
  }

  /** What one line of a file can say. */
  predicate IsRead(s: Setting) {
    && (s.Pdeath? ==> ParseSignal(s.signal) == Some(s.signal))
    && (s.Verbosity? ==> s.level <= 3)
    && PortFits(s)
    && (HasPath(s) ==> IsPrintable(s.path))
  }

  lemma SplitValueIsTrimmed(line: string)
    ensures var value := SplitConfigLine(line).1;
      value.Some? ==> value.value != "" && IsTrimmed(value.value)
  {
    TrimTrims(line[FirstWhitespace(line)..]);
  }

  lemma ReadSignalIsRead(value: Option<string>, s: Setting)
    requires ReadSignal(value) == Ok(s)
    ensures IsRead(s)
  {
    ParsedSignalIsCanonical(value.value, s.signal);
  }

  lemma ReadPathIsRead(k: nat, value: Option<string>, s: Setting)
    requires value.Some? ==> value.value != "" && IsTrimmed(value.value)
    requires IsPathList(k) && ReadOption(k, value) == Ok(s)
    ensures IsRead(s)
  {
  }

  lemma ReadOptionIsRead(k: nat, value: Option<string>, s: Setting)
    requires value.Some? ==> value.value != "" && IsTrimmed(value.value)
    requires ReadOption(k, value) == Ok(s)
    ensures IsRead(s)
  {
    if k == 1 {
      ReadSignalIsRead(value, s);
    } else if IsPathList(k) {
      ReadPathIsRead(k, value, s);
    } else {
      ReadOtherIsRead(k, value, s);
    }
  }

  lemma ReadOtherIsRead(k: nat, value: Option<string>, s: Setting)
    requires k != 1 && !IsPathList(k) && ReadOption(k, value) == Ok(s)
    ensures IsRead(s)
  {
  }

  lemma SetKeepsWellFormed(cli: Cli, s: Setting)
    requires WellFormed(cli) && IsRead(s)
    ensures WellFormed(Set(cli, s))
  {
    hide ParseSignal, IsPrintable;
  }

  /** What normalizing would change nothing of. */
  predicate IsNormal(cli: Cli) {
    && (cli.pdeath.Some? ==> ParseSignal(cli.pdeath.value) == cli.pdeath)
    && cli.verbosity <= 3 && cli.cmd == []
    && !cli.explain && !cli.printConfig && !cli.writeConfig && !cli.checkConfig && !cli.noConfig
  }

  lemma NormalizedExactly(cli: Cli)
    ensures Normalize(cli) == cli <==> IsNormal(cli)
  {
    hide ParseSignal;
  }

  lemma SetKeepsIsNormal(cli: Cli, s: Setting)
    requires IsNormal(cli) && IsRead(s)
    ensures IsNormal(Set(cli, s))
  {
    hide ParseSignal;
  }

  lemma SetKeepsNormal(cli: Cli, s: Setting)
    requires Normalize(cli) == cli && IsRead(s)
    ensures Normalize(Set(cli, s)) == Set(cli, s)
  {
    hide Normalize, IsNormal, Set, IsRead;
    NormalizedExactly(cli);
    SetKeepsIsNormal(cli, s);
    NormalizedExactly(Set(cli, s));
  }

  lemma {:induction false} ReadLinesKeep(start: Cli, lines: seq<string>, lineNo: nat, cli: Cli)
    requires WellFormed(start) && Normalize(start) == start
    requires ReadLines(start, lines, lineNo) == Ok(cli)
    ensures WellFormed(cli) && Normalize(cli) == cli
    decreases |lines|
  {
    if lines != [] {
      var line := Trim(lines[0]);
      if IsSkipped(line) {
        ReadLinesKeep(start, lines[1..], lineNo + 1, cli);
      } else {
        var s := ReadLine(line).value;
        var (key, value) := SplitConfigLine(line);
        SplitValueIsTrimmed(line);
        ReadOptionIsRead(OptionNumber(key).value, value, s);
        SetKeepsWellFormed(start, s);
        SetKeepsNormal(start, s);
        ReadLinesKeep(Set(start, s), lines[1..], lineNo + 1, cli);
      }
    }
  }

  /** What was read can be printed exactly if its paths are absolute, which the parser does not ask
      for; printed and read once more, it is unchanged. */
  lemma ReadThenPrint(content: string, cli: Cli)
    requires ReadContent(content) == Ok(cli)
    ensures ConfigText(cli).Ok? <==> PathsFit(cli)
    ensures ConfigText(cli).Ok? ==> ReadContent(ConfigText(cli).value) == Ok(cli)
  {
    ReadLinesKeep(DEFAULT, Lines(content), 1, cli);
    PrintableExactly(cli);
    if ConfigText(cli).Ok? {
      RoundTrip(cli, ConfigText(cli).value);
    }
  }

  lemma OneLineReads(cli: Cli, lines: seq<string>, lineNo: nat, s: Setting)
    requires |lines| == 1 && Trim(lines[0]) == lines[0] && !IsSkipped(lines[0]) && ReadLine(lines[0]) == Ok(s)
    ensures ReadLines(cli, lines, lineNo) == Ok(Set(cli, s))
  {
    assert lines[1..] == [];
  }

  lemma SingleLineReads(line: string, s: Setting)
    requires '\n' !in line && '\r' !in line && Trim(line) == line && !IsSkipped(line) && ReadLine(line) == Ok(s)
    ensures ReadContent(line + "\n") == Ok(Set(DEFAULT, s))
  {
    LinesOfLine(line, "");
    assert line + "\n" + "" == line + "\n";
    assert Lines("") == [];
    OneLineReads(DEFAULT, Lines(line + "\n"), 1, s);
  }

  /** The case that fails: any path that is not absolute is read, but cannot be printed. */
  lemma RelativePathOnlyReads(path: string)
    requires IsPrintable(path) && !IsAbsolute(path)
    ensures ReadContent(LineOf(KeyOf(WriteAllow(path)), Some(path)) + "\n") == Ok(Set(DEFAULT, WriteAllow(path)))
    ensures ConfigText(Set(DEFAULT, WriteAllow(path))).Err?
  {
    hide OptionNumber, ReadLine, ReadContent, ConfigText, Trim, LineOf, WellFormed;
    var s := WriteAllow(path);
    KeysArePlain(s);
    KeysAreDistinct(NumberOf(s));
    LineIsWhole(KeyOf(s), Some(path));
    LineReads(KeyOf(s), Some(path), s);
    SingleLineReads(LineOf(KeyOf(s), Some(path)), s);
    assert path in Set(DEFAULT, s).writeAllow;
    PrintableExactly(Set(DEFAULT, s));
  }

  // ---------------------------------------------------------------- the code

  /** The text under construction, which every push appends to. */
  class ConfigWriter {
    var out: string

    constructor ()
      ensures out == ""
    {
      out := "";
    }

    method Push(s: Setting) returns (problem: Option<Problem>)
      modifies this
      ensures match PrintLine(s)
        case Ok(line) => problem == None && out == old(out) + line + "\n"
        case Err(e) => problem == Some(e) && out == old(out)
    {
      if s.Pdeath? && ParseSignal(s.signal).None? {
        return Some(BadSignal);
      }
      if (s.BindTcpAllow? || s.ConnectTcpAllow?) && s.port == 0 {
        return Some(BadPort);
      }
      var text := TextOf(s);
      if text.None? {
        out := out + KeyOf(s) + "\n";
        return None;
      }
      var value := ValidateConfigValue(text.value);
      if value.Err? {
        return Some(value.error);
      }
      if !PathFits(s) {
        return Some(NotAbsolute);
      }
      assert out + KeyOf(s) + " " + value.value == out + (KeyOf(s) + " " + value.value);
      out := out + KeyOf(s) + " " + value.value + "\n";
      problem := None;
    }

    /** One push after another, up to the first that fails. */
    method PushAll(settings: seq<Setting>) returns (problem: Option<Problem>)
      modifies this
      ensures match PrintAll(old(out), settings)
        case Ok(text) => problem == None && out == text
        case Err(e) => problem == Some(e)
    {
      for i := 0 to |settings|
        invariant PrintAll(old(out), settings) == AppendAll(out, WholeLines(settings)[i..])
      {
        ghost var before := out;
        assert WholeLines(settings)[i..][1..] == WholeLines(settings)[i + 1..];
        assert WholeLines(settings)[i..][0] == WholeLine(settings[i]);
        var pushed := Push(settings[i]);
        if pushed.Some? {
          return pushed;
        }
        assert out == before + (PrintLine(settings[i]).value + "\n");
      }
      problem := None;
    }
  }

  method WriteConfigText(cli: Cli) returns (r: Result<string, Problem>)
    ensures r == ConfigText(cli)
  {
    var writer := new ConfigWriter();
    var problem := writer.PushAll(Settings(cli));
    r := if problem.Some? then Err(problem.value) else Ok(writer.out);
  }

  /** The options under construction, which every line adds to. */
  class ConfigReader {
    var cli: Cli

    constructor ()
      ensures cli == DEFAULT
    {
      cli := DEFAULT;
    }

    method ApplyConfigLine(line: string) returns (problem: Option<Problem>)
      modifies this
      ensures match ReadLine(line)
        case Ok(s) => problem == None && cli == Set(old(cli), s)
        case Err(e) => problem == Some(e) && cli == old(cli)
    {
      var (key, value) := SplitConfigLine(line);
      var k := OptionNumber(key);
      if k.Err? {
        return Some(k.error);
      }
      var s := ReadOption(k.value, value);
      if s.Err? {
        return Some(s.error);
      }
      cli := Set(cli, s.value);
      problem := None;
    }
  }

  method ParseConfigContent(content: string) returns (r: Result<Cli, ConfigError>)
    ensures r == ReadContent(content)
  {
    var reader := new ConfigReader();
    var lines := Lines(content);
    for idx := 0 to |lines|
      invariant ReadContent(content) == ReadLines(reader.cli, lines[idx..], idx + 1)
    {
      assert lines[idx..][0] == lines[idx] && lines[idx..][1..] == lines[idx + 1..];
      var line := Trim(lines[idx]);
      if IsSkipped(line) {
        continue;
      }
      var problem := reader.ApplyConfigLine(line);
      if problem.Some? {
        return Err(At(idx + 1, problem.value));
      }
    }
    r := Ok(reader.cli);
  }
}
