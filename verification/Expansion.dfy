/** Environment expansion of child command arguments (src/platform/unix/child.rs).

    The source reads one small language with three separately written scanners.
    Here each scanner is a loop proved against a function; module TemplateLanguage
    relates those functions to a definition of the language that has no scanner. */
module Expansion {
  import opened Results
  import opened Text

  // ---------------------------------------------------------------- environment

  /** What `env::var` answers for a name that is present. */
  datatype EnvValue = Unicode(text: string) | NotUnicode

  type Environment = map<string, EnvValue>

  datatype ExpandError =
    | NestingTooDeep
    | MissingBrace
    | InvalidName(name: string)
    | Unsupported(body: string)
    | NotUnicodeValue(name: string)

  type Expanded = Result<string, ExpandError>

  const MAX_ENV_EXPANSION_DEPTH: nat := 32

  predicate IsNameStart(c: char) {
    c == '_' || 'a' <= c <= 'z' || 'A' <= c <= 'Z'
  }

  predicate IsNameContinue(c: char) {
    IsNameStart(c) || '0' <= c <= '9'
  }

  predicate IsValidEnvName(name: string) {
    && name != ""
    && IsNameStart(name[0])
    && forall i | 1 <= i < |name| :: IsNameContinue(name[i])
  }

  // ------------------------------------------------- what the scanners compute

  datatype Frame = Expansion | Literal

  /** What one token does to the stack of open braces. */
  datatype Move = Open(frame: Frame, len: nat) | Close | Skip(len: nat)

  function NextMove(s: string, i: nat, literal: bool): (m: Move)
    requires i < |s|
    ensures m.Open? ==> 0 < m.len <= |s| - i
    ensures m.Skip? ==> 0 < m.len <= |s| - i
    ensures m.Close? <==> s[i] == '}'
  {
    if s[i] == '$' && i + 1 < |s| && s[i + 1] == '$' then
      if i + 2 < |s| && s[i + 2] == '{' then Open(Literal, 3) else Skip(2)
    else if s[i] == '$' && i + 1 < |s| && s[i + 1] == '{' then Open(Expansion, 2)
    else if literal && s[i] == '{' then Open(Literal, 1)
    else if s[i] == '}' then Close
    else Skip(1)
  }

  predicate TopIsLiteral(stack: seq<Frame>) {
    stack != [] && stack[|stack| - 1] == Literal
  }

  function Pop(stack: seq<Frame>): seq<Frame>
    requires stack != []
  {
    stack[..|stack| - 1]
  }

  predicate AtDefault(s: string, i: nat) {
    i + 1 < |s| && s[i] == ':' && s[i + 1] == '-'
  }

  /** What a scan of open braces looks for: the brace that closes its last frame, or the first `:-`
      outside every brace it has seen. */
  datatype Goal = ClosingBrace | DefaultOperator

  predicate Reached(s: string, i: nat, stack: seq<Frame>, goal: Goal)
    requires i < |s|
  {
    match goal
    case ClosingBrace => |stack| == 1 && s[i] == '}'
    case DefaultOperator => stack == [] && AtDefault(s, i)
  }

  /** Where the next token starts, and the braces open there. */
  function Step(s: string, i: nat, stack: seq<Frame>): (next: (nat, seq<Frame>))
    requires i < |s|
    ensures i < next.0 <= |s|
  {
    match NextMove(s, i, TopIsLiteral(stack))
    case Open(frame, n) => (i + n, stack + [frame])
    case Close => (i + 1, if stack == [] then [] else Pop(stack))
    case Skip(n) => (i + n, stack)
  }

  /** Where a scan of `s` from `i`, inside the open braces `stack`, reaches its goal. */
  function Scan(s: string, i: nat, stack: seq<Frame>, goal: Goal): (found: Option<nat>)
    requires i <= |s|
    ensures found.Some? ==> i <= found.value < |s|
    ensures found.Some? && goal == DefaultOperator ==> found.value + 2 <= |s|
    decreases |s| - i
  {
    if i == |s| then None
    else if Reached(s, i, stack, goal) then Some(i)
    else
      var (j, after) := Step(s, i, stack);
      Scan(s, j, after, goal)
  }

  /** The same, named apart so that proofs take a scan step by step. */
  function Find(s: string, i: nat, stack: seq<Frame>, goal: Goal): (found: Option<nat>)
    requires i <= |s|
    ensures found.Some? ==> i <= found.value < |s|
    ensures found.Some? && goal == DefaultOperator ==> found.value + 2 <= |s|
  {
    Scan(s, i, stack, goal)
  }

  /** The `}` that matches a `${` ending at `i`. */
  function ClosingAt(s: string, i: nat): (found: Option<nat>)
    requires i <= |s|
    ensures found.Some? ==> i <= found.value < |s|
  {
    Find(s, i, [Expansion], ClosingBrace)
  }

  /** The first `:-` outside nested braces. */
  function DefaultAt(s: string): (found: Option<nat>)
    ensures found.Some? ==> found.value + 2 <= |s|
  {
    Find(s, 0, [], DefaultOperator)
  }

  // ------------------------------------------------- what the expander computes

  function Then(first: Expanded, rest: Expanded): Expanded {
    if first.Ok? && rest.Ok? then Ok(first.value + rest.value)
    else if first.Ok? then rest
    else first
  }

  function Expand(s: string, env: Environment, depth: nat): Expanded
    decreases |s|, |s| + 1
  {
    if depth > MAX_ENV_EXPANSION_DEPTH then Err(NestingTooDeep) else ExpandFrom(s, 0, env, depth)
  }

  /** What the argument gives from `i` on: `Reading`, named apart so that proofs take it step by step. */
  function ExpandFrom(s: string, i: nat, env: Environment, depth: nat): Expanded
    requires i <= |s|
    decreases |s|, |s| - i, 1
  {
    Reading(s, i, env, depth)
  }

  function Reading(s: string, i: nat, env: Environment, depth: nat): Expanded
    requires i <= |s|
    decreases |s|, |s| - i, 0
  {
    if i == |s| then Ok("")
    else if s[i] == '$' && i + 1 < |s| && s[i + 1] == '$' then
      Then(Ok("$"), Reading(s, i + 2, env, depth))
    else if s[i] == '$' && i + 1 < |s| && s[i + 1] == '{' then
      match ClosingAt(s, i + 2)
      case None => Err(MissingBrace)
      case Some(k) => Then(ExpandBraced(s[i + 2..k], env, depth + 1), Reading(s, k + 1, env, depth))
    else Then(Ok([s[i]]), Reading(s, i + 1, env, depth))
  }

  function ExpandBraced(body: string, env: Environment, depth: nat): Expanded
    decreases |body|, |body| + 3
  {
    match DefaultAt(body)
    case Some(k) =>
      if IsValidEnvName(body[..k]) then Resolve(body[..k], Some(body[k + 2..]), env, depth)
      else Err(InvalidName(body[..k]))
    case None =>
      if IsValidEnvName(body) then Resolve(body, None, env, depth) else Err(Unsupported(body))
  }

  function Resolve(name: string, default: Option<string>, env: Environment, depth: nat): Expanded
    decreases if default.Some? then |default.value| else 0, if default.Some? then |default.value| + 2 else 0
  {
    if name in env && env[name].NotUnicode? then Err(NotUnicodeValue(name))
    else if name in env && (default.None? || env[name].text != "") then Ok(env[name].text)
    else if default.Some? then Expand(default.value, env, depth)
    else Ok("")
  }

  lemma ThenAssociates(a: Expanded, b: Expanded, c: Expanded)
    ensures Then(Then(a, b), c) == Then(a, Then(b, c))
  {
    if a.Ok? && b.Ok? && c.Ok? {
      assert (a.value + b.value) + c.value == a.value + (b.value + c.value);
    }
  }

  lemma ThenNothing(a: Expanded)
    ensures Then(a, Ok("")) == a && Then(Ok(""), a) == a
  {
    if a.Ok? {
      assert a.value + "" == a.value && "" + a.value == a.value;
    }
  }

  // ------------------------------------------------- the three scanners, as loops

  method FindMatchingBrace(arg: string, start: nat) returns (r: Result<nat, ExpandError>)
    requires start <= |arg|
    ensures r == match ClosingAt(arg, start) case None => Err(MissingBrace) case Some(k) => Ok(k)
  {
    var idx := start;
    var stack := [Expansion];
    while idx < |arg|
      invariant start <= idx <= |arg| && stack != []
      invariant Find(arg, idx, stack, ClosingBrace) == ClosingAt(arg, start)
    {
      if arg[idx] == '$' && idx + 1 < |arg| {
        if arg[idx + 1] == '$' {
          if idx + 2 < |arg| && arg[idx + 2] == '{' {
            stack := stack + [Literal];
            idx := idx + 3;
          } else {
            idx := idx + 2;
          }
          continue;
        } else if arg[idx + 1] == '{' {
          stack := stack + [Expansion];
          idx := idx + 2;
          continue;
        }
      }
      if stack[|stack| - 1] == Literal && arg[idx] == '{' {
        stack := stack + [Literal];
        idx := idx + 1;
        continue;
      }
      if arg[idx] == '}' {
        stack := Pop(stack);
        if stack == [] {
          return Ok(idx);
        }
        idx := idx + 1;
        continue;
      }
      idx := idx + 1;
    }
    return Err(MissingBrace);
  }

  method SplitBracedDefault(body: string) returns (r: Option<(string, string)>)
    ensures r == match DefaultAt(body) case None => None case Some(k) => Some((body[..k], body[k + 2..]))
  {
    var idx := 0;
    var stack: seq<Frame> := [];
    while idx < |body|
      invariant idx <= |body|
      invariant Find(body, idx, stack, DefaultOperator) == DefaultAt(body)
    {
      if body[idx] == '$' && idx + 1 < |body| {
        if body[idx + 1] == '$' {
          if idx + 2 < |body| && body[idx + 2] == '{' {
            stack := stack + [Literal];
            idx := idx + 3;
          } else {
            idx := idx + 2;
          }
          continue;
        } else if body[idx + 1] == '{' {
          stack := stack + [Expansion];
          idx := idx + 2;
          continue;
        }
      }
      if stack != [] && stack[|stack| - 1] == Literal && body[idx] == '{' {
        stack := stack + [Literal];
        idx := idx + 1;
        continue;
      }
      if body[idx] == '}' && stack != [] {
        stack := Pop(stack);
        idx := idx + 1;
        continue;
      }
      if stack == [] && body[idx] == ':' && idx + 1 < |body| && body[idx + 1] == '-' {
        return Some((body[..idx], body[idx + 2..]));
      }
      idx := idx + 1;
    }
    return None;
  }

  lemma {:induction false} CopiesToDollar(arg: string, i: nat, env: Environment, depth: nat)
    requires i <= |arg|
    ensures ExpandFrom(arg, i, env, depth)
         == Then(Ok(arg[i..IndexOf(arg, i, '$')]), ExpandFrom(arg, IndexOf(arg, i, '$'), env, depth))
    decreases |arg| - i
  {
    var d := IndexOf(arg, i, '$');
    if d == i {
      assert arg[i..d] == "";
      ThenNothing(ExpandFrom(arg, i, env, depth));
    } else {
      CopiesToDollar(arg, i + 1, env, depth);
      ThenAssociates(Ok([arg[i]]), Ok(arg[i + 1..d]), ExpandFrom(arg, d, env, depth));
      assert [arg[i]] + arg[i + 1..d] == arg[i..d];
    }
  }

  /** `expanded` and what the rest of the argument gives make the whole answer. */
  ghost predicate Progress(expanded: string, rest: Expanded, whole: Expanded) {
    Then(Ok(expanded), rest) == whole
  }

  lemma Append(expanded: string, value: string, rest: Expanded, whole: Expanded)
    requires Progress(expanded, Then(Ok(value), rest), whole)
    ensures Progress(expanded + value, rest, whole)
  {
    ThenAssociates(Ok(expanded), Ok(value), rest);
  }

  method ExpandCommandArgWithDepth(arg: string, env: Environment, depth: nat) returns (r: Expanded)
    ensures r == Expand(arg, env, depth)
    decreases |arg|, 2
  {
    hide ExpandBraced, Scan;
    if depth > MAX_ENV_EXPANSION_DEPTH {
      return Err(NestingTooDeep);
    }
    var expanded := "";
    var idx := 0;
    ghost var whole := ExpandFrom(arg, 0, env, depth);
    ThenNothing(whole);
    while idx < |arg|
      invariant idx <= |arg| && Progress(expanded, ExpandFrom(arg, idx, env, depth), whole)
    {
      var dollar := IndexOf(arg, idx, '$');
      CopiesToDollar(arg, idx, env, depth);
      Append(expanded, arg[idx..dollar], ExpandFrom(arg, dollar, env, depth), whole);
      expanded := expanded + arg[idx..dollar];
      if dollar == |arg| {
        idx := dollar;
        break;
      }
      if dollar + 1 >= |arg| {
        Append(expanded, "$", ExpandFrom(arg, dollar + 1, env, depth), whole);
        expanded := expanded + "$";
        idx := dollar + 1;
        break;
      }
      if arg[dollar + 1] == '$' {
        Append(expanded, "$", ExpandFrom(arg, dollar + 2, env, depth), whole);
        expanded := expanded + "$";
        idx := dollar + 2;
      } else if arg[dollar + 1] == '{' {
        var closing := FindMatchingBrace(arg, dollar + 2);
        if closing.Err? {
          return Err(closing.error);
        }
        var value := ExpandBracedEnv(arg[dollar + 2..closing.value], env, depth + 1);
        if value.Err? {
          return value;
        }
        Append(expanded, value.value, ExpandFrom(arg, closing.value + 1, env, depth), whole);
        expanded := expanded + value.value;
        idx := closing.value + 1;
      } else {
        Append(expanded, "$", ExpandFrom(arg, dollar + 1, env, depth), whole);
        expanded := expanded + "$";
        idx := dollar + 1;
      }
    }
    assert ExpandFrom(arg, idx, env, depth) == Ok("");
    ThenNothing(Ok(expanded));
    return Ok(expanded);
  }

  method ExpandBracedEnv(body: string, env: Environment, depth: nat) returns (r: Expanded)
    ensures r == ExpandBraced(body, env, depth)
    decreases |body|, 4
  {
    var split := SplitBracedDefault(body);
    if split.Some? {
      if !IsValidEnvName(split.value.0) {
        return Err(InvalidName(split.value.0));
      }
      r := ResolveEnvValue(split.value.0, Some(split.value.1), env, depth);
    } else if IsValidEnvName(body) {
      r := ResolveEnvValue(body, None, env, depth);
    } else {
      r := Err(Unsupported(body));
    }
  }

  method ResolveEnvValue(name: string, default: Option<string>, env: Environment, depth: nat) returns (r: Expanded)
    ensures r == Resolve(name, default, env, depth)
    decreases if default.Some? then |default.value| else 0, 3
  {
    if name in env && env[name].Unicode? && (default.None? || env[name].text != "") {
      return Ok(env[name].text);
    }
    if name !in env || env[name].Unicode? {
      if default.Some? {
        r := ExpandCommandArgWithDepth(default.value, env, depth);
        return;
      }
      return Ok("");
    }
    return Err(NotUnicodeValue(name));
  }
}
