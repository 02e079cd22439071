/** How the argument of `env -S` is split into fields (src/platform/unix/mod.rs,
    split_env_split_string): the loop, what it computes, and how long the fields can be. Module
    EnvLanguage says what they are. */
module EnvSplit {
  import opened Results
  import opened Text
  import opened Expansion

  // ---------------------------------------------------------------- the splitter

  /** The variables of the loop. `quote` is the open quotation mark. */
  datatype Splitter = Splitter(fields: seq<string>, current: string, inField: bool, quote: Option<char>, escaped: bool)
  {
    function Push(text: string): Splitter {
      this.(current := current + text, inField := true)
    }

    function EndField(): Splitter {
      if inField then this.(fields := fields + [current], current := "", inField := false) else this
    }

    predicate Quoting(q: char) {
      quote == Some(q)
    }
  }

  const START: Splitter := Splitter([], "", false, None, false)

  /** What one turn of the loop does: continue at `next`, leave the loop, or give up. */
  datatype Turn = Go(next: nat, s: Splitter) | Stop(s: Splitter) | Invalid

  predicate IsAsciiWhitespace(c: char) {
    c == ' ' || c == '\t' || c == '\n' || c == '\r' || c as int == 0x0C
  }

  /** The character that an escape sequence stands for. */
  function Unescaped(c: char): Option<char> {
    if c == 'n' then Some('\n')
    else if c == 't' then Some('\t')
    else if c == 'r' then Some('\r')
    else if c == 'f' then Some(0x0C as char)
    else if c == 'v' then Some(0x0B as char)
    else if c == '\\' || c == '\'' || c == '"' || c == '$' || c == '#' then Some(c)
    else None
  }

  function AfterBackslash(s: Splitter, c: char, next: nat): Turn {
    if c == '_' && s.quote.None? then Go(next, s.EndField().(escaped := false))
    else if c == '_' then Go(next, s.Push(" ").(escaped := false))
    else if c == 'c' && s.quote.None? then Stop(s.(escaped := false))
    else
      match Unescaped(c)
      case Some(d) => Go(next, s.Push([d]).(escaped := false))
      case None => Invalid
  }

  /** A reference whose dollar sign is just before `i`. */
  function ExpandVariable(env: Environment, raw: string, i: nat, s: Splitter): Turn
    requires i <= |raw|
  {
    if i == |raw| || raw[i] != '{' then Invalid
    else
      var end := IndexOf(raw, i + 1, '}');
      if end == |raw| then Invalid
      else
        var name := raw[i + 1..end];
        if !IsValidEnvName(name) then Invalid
        else if name !in env then Go(end + 1, s)
        else if env[name].NotUnicode? then Invalid
        else Go(end + 1, s.Push(env[name].text))
  }

  function TurnAt(env: Environment, raw: string, i: nat, s: Splitter): (t: Turn)
    requires i < |raw|
    ensures t.Go? ==> i < t.next <= |raw|
  {
    var c := raw[i];
    var next := i + 1;
    if s.escaped then AfterBackslash(s, c, next)
    else if c == '\\' && (!s.Quoting('\'') || (next < |raw| && (raw[next] == '\\' || raw[next] == '\''))) then
      Go(next, s.(escaped := true))
    else if !s.Quoting('\'') && c == '$' then ExpandVariable(env, raw, next, s)
    else if s.quote.Some? then
      Go(next, if s.Quoting(c) then s.(quote := None, inField := true) else s.Push([c]))
    else if c == '\'' || c == '"' then Go(next, s.(quote := Some(c), inField := true))
    else if c == '#' && !s.inField then Stop(s)
    else if IsAsciiWhitespace(c) then Go(next, s.EndField())
    else Go(next, s.Push([c]))
  }

  function Finish(s: Splitter): Option<seq<string>> {
    if s.escaped || s.quote.Some? then None
    else Some(if s.inField then s.fields + [s.current] else s.fields)
  }

  /** The fields that the rest of `raw` from `i` on ends with. */
  function SplitFrom(env: Environment, raw: string, i: nat, s: Splitter): Option<seq<string>>
    requires i <= |raw|
    decreases |raw| - i
  {
    if i == |raw| then Finish(s)
    else
      match TurnAt(env, raw, i, s)
      case Go(next, s') => SplitFrom(env, raw, next, s')
      case Stop(s') => Finish(s')
      case Invalid => None
  }

  /** The same, named apart so that proofs take it turn by turn. */
  function Rest(env: Environment, raw: string, i: nat, s: Splitter): Option<seq<string>>
    requires i <= |raw|
  {
    SplitFrom(env, raw, i, s)
  }

  lemma TurnRuns(env: Environment, raw: string, i: nat, s: Splitter, next: nat, s': Splitter)
    requires i < |raw| && TurnAt(env, raw, i, s) == Go(next, s')
    ensures Rest(env, raw, i, s) == Rest(env, raw, next, s')
  {
  }

  function Split(env: Environment, raw: string): Option<seq<string>> {
    Rest(env, raw, 0, START)
  }

  method SplitEnvSplitString(env: Environment, raw: string) returns (r: Option<seq<string>>)
    ensures r == Split(env, raw)
  {
    var fields: seq<string> := [];
    var current: string := "";
    var inField := false;
    var quote: Option<char> := None;
    var escaped := false;
    var idx := 0;
    while idx < |raw|
      invariant idx <= |raw|
      invariant Split(env, raw) == SplitFrom(env, raw, idx, Splitter(fields, current, inField, quote, escaped))
    {
      var ch := raw[idx];
      idx := idx + 1;
      if escaped {
        escaped := false;
        if ch == '_' && quote.None? {
          if inField {
            fields, current, inField := fields + [current], "", false;
          }
        } else if ch == '_' {
          current, inField := current + " ", true;
        } else if ch == 'c' && quote.None? {
          break;
        } else {
          var unescaped := Unescaped(ch);
          if unescaped.None? {
            return None;
          }
          current, inField := current + [unescaped.value], true;
        }
        continue;
      }
      if ch == '\\' && (quote != Some('\'') || (idx < |raw| && (raw[idx] == '\\' || raw[idx] == '\''))) {
        escaped := true;
        continue;
      }
      if quote != Some('\'') && ch == '$' {
        if idx == |raw| || raw[idx] != '{' {
          return None;
        }
        var end := IndexOf(raw, idx + 1, '}');
        if end == |raw| {
          return None;
        }
        var name := raw[idx + 1..end];
        if !IsValidEnvName(name) {
          return None;
        }
        idx := end + 1;
        if name in env {
          if env[name].NotUnicode? {
            return None;
          }
          current, inField := current + env[name].text, true;
        }
        continue;
      }
      if quote.Some? {
        if quote == Some(ch) {
          quote := None;
        } else {
          current := current + [ch];
        }
        inField := true;
        continue;
      }
      if ch == '\'' || ch == '"' {
        quote, inField := Some(ch), true;
        continue;
      }
      if ch == '#' && !inField {
        break;
      }
      if IsAsciiWhitespace(ch) {
        if inField {
          fields, current, inField := fields + [current], "", false;
        }
        continue;
      }
      current, inField := current + [ch], true;
    }
    if escaped || quote.Some? {
      return None;
    }
    if inField {
      fields := fields + [current];
    }
    r := Some(fields);
  }

  // ---------------------------------------------------------------- how long the fields are

  function Total(fields: seq<string>): nat {
    if fields == [] then 0 else |fields[0]| + Total(fields[1..])
  }

  lemma {:induction false} TotalSplits(a: seq<string>, b: seq<string>)
    ensures Total(a + b) == Total(a) + Total(b)
    decreases |a|
  {
    if a == [] {
      assert a + b == b;
    } else {
      assert (a + b)[1..] == a[1..] + b;
      TotalSplits(a[1..], b);
    }
  }

  lemma TotalOfOne(field: string)
    ensures Total([field]) == |field|
  {
    assert [field][1..] == [];
  }

  /** What references are made of, braces aside. */
  predicate MayRefer(c: char) {
    c == '$' || IsNameContinue(c)
  }

  /** A text whose references can only use these characters. */
  predicate Over(alphabet: set<char>, text: string) {
    forall c <- text :: MayRefer(c) ==> c in alphabet
  }

  /** Of the variables that can be named with these characters, none is longer than the reference to
      it or brings in other characters. Without `$` none can be named at all. */
  predicate Tame(env: Environment, alphabet: set<char>) {
    '$' in alphabet ==>
      forall name <- env :: IsValidEnvName(name) && Over(alphabet, name) && env[name].Unicode? ==>
        |env[name].text| <= |name| + 3 && Over(alphabet, env[name].text)
  }

  predicate AllOver(alphabet: set<char>, fields: seq<string>) {
    forall field <- fields :: Over(alphabet, field)
  }

  predicate HoldsOver(alphabet: set<char>, s: Splitter) {
    AllOver(alphabet, s.fields) && Over(alphabet, s.current)
  }

  /** Every finished field counts for one more character: the one that ended it. */
  function Held(s: Splitter): nat {
    Total(s.fields) + |s.fields| + |s.current|
  }

  lemma EndFieldHolds(s: Splitter)
    ensures Held(s.EndField()) <= Held(s) + 1
  {
    if s.inField {
      TotalSplits(s.fields, [s.current]);
      TotalOfOne(s.current);
    }
  }

  lemma ExpansionShrinks(env: Environment, alphabet: set<char>, raw: string, i: nat, s: Splitter)
    requires Tame(env, alphabet) && Over(alphabet, raw) && HoldsOver(alphabet, s) && 0 < i <= |raw| && raw[i - 1] == '$'
    ensures var t := ExpandVariable(env, raw, i, s);
      t.Go? ==> Held(t.s) <= Held(s) + t.next - i + 1 && HoldsOver(alphabet, t.s)
  {
    assert raw[i - 1] in raw;
    if i < |raw| && raw[i] == '{' {
      var name := raw[i + 1..IndexOf(raw, i + 1, '}')];
      assert forall c <- name :: c in raw;
    }
  }

  lemma EscapeShrinks(alphabet: set<char>, s: Splitter, c: char, next: nat)
    requires HoldsOver(alphabet, s) && (MayRefer(c) ==> c in alphabet)
    ensures match AfterBackslash(s, c, next)
      case Go(_, s') => Held(s') <= Held(s) + 1 && HoldsOver(alphabet, s')
      case Stop(s') => Held(s') == Held(s) && HoldsOver(alphabet, s')
      case Invalid => true
  {
    EndFieldHolds(s);
  }

  lemma TurnShrinks(env: Environment, alphabet: set<char>, raw: string, i: nat, s: Splitter)
    requires Tame(env, alphabet) && Over(alphabet, raw) && HoldsOver(alphabet, s) && i < |raw|
    ensures match TurnAt(env, raw, i, s)
      case Go(next, s') => Held(s') <= Held(s) + next - i && HoldsOver(alphabet, s')
      case Stop(s') => Held(s') == Held(s) && HoldsOver(alphabet, s')
      case Invalid => true
  {
    assert raw[i] in raw;
    if s.escaped {
      EscapeShrinks(alphabet, s, raw[i], i + 1);
    } else {
      EndFieldHolds(s);
      if raw[i] == '$' {
        ExpansionShrinks(env, alphabet, raw, i + 1, s);
      }
    }
  }

  lemma {:induction false} SplitFromShrinks(env: Environment, alphabet: set<char>, raw: string, i: nat, s: Splitter,
      fields: seq<string>)
    requires Tame(env, alphabet) && Over(alphabet, raw) && HoldsOver(alphabet, s)
    requires i <= |raw| && SplitFrom(env, raw, i, s) == Some(fields)
    ensures Total(fields) + |fields| <= Held(s) + |raw| - i + 1 && AllOver(alphabet, fields)
    decreases |raw| - i
  {
    if i == |raw| {
      EndFieldHolds(s);
    } else {
      TurnShrinks(env, alphabet, raw, i, s);
      match TurnAt(env, raw, i, s)
      case Go(next, s') => SplitFromShrinks(env, alphabet, raw, next, s', fields);
      case Stop(s') => EndFieldHolds(s');
      case Invalid =>
    }
  }

  /** Splitting drops characters, one at least between two fields, and brings in none that references
      are made of, unless a variable that the text can name is longer than its reference or brings
      in such a character. */
  lemma SplitShrinks(env: Environment, alphabet: set<char>, raw: string, fields: seq<string>)
    requires Tame(env, alphabet) && Over(alphabet, raw) && Split(env, raw) == Some(fields)
    ensures Total(fields) + |fields| <= |raw| + 1 && AllOver(alphabet, fields)
  {
    SplitFromShrinks(env, alphabet, raw, 0, START, fields);
  }
}
