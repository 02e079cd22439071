/** Which files a policy must allow to be executed along with a command (src/platform/unix/mod.rs,
    insert_landlock_exec_path_inner and what it calls): a search of the graph of interpreters,
    whose nodes are files together with the environment and directory they would run in. What the
    file system answers is a parameter. */
module Discovery {
  import opened Results

  const VISIT_LIMIT: nat := 256

  datatype Mode = Strict | Auto

  datatype Context = Context(environment: map<string, string>, cwd: Option<string>)

  /** A canonical path in the context it would be executed in. */
  datatype Node = Node(file: string, context: Context)

  datatype Command = Candidate(path: string) | SearchCandidates(paths: seq<string>) | Missing

  /** The argument of a shebang line, None when it is not valid UTF-8. */
  datatype Interpreter =
    | Plain(command: Command)
    | ShebangCandidate(path: string, argument: Option<string>)
    | EnvCommand(command: Command, context: Context)
    | Unresolved

  /** Opening a path: an unavailable one is missing or out of reach, a broken one fails otherwise. */
  datatype Resolution = Found(file: string) | Unavailable | Broken

  datatype Failure =
    | NotInPath
    | NotResolved
    | NotExecutable
    | NotUtf8
    | NotInspected
    | TooManyVisits

  /** The file system and the parsers of headers and shebang lines. `main` answers for the path of
      the main command, `resolve` for any other. */
  datatype World = World(
    executable: string -> bool,
    isEnv: string -> bool,
    main: string -> Resolution,
    resolve: string -> Resolution,
    locate: (Context, string) -> string,
    search: (string, Context) -> seq<string>,
    interpreters: Node -> Result<seq<Interpreter>, Failure>,
    envCommand: (string, Context) -> Result<Option<(Command, Context)>, Failure>)

  // ---------------------------------------------------------------- the graph

  predicate Resolves(w: World, path: string, file: string) {
    w.resolve(path) == Found(file) && w.executable(file)
  }

  predicate InSearch(w: World, paths: seq<string>, context: Context, n: Node) {
    n.context == context && exists path <- paths :: Resolves(w, path, n.file)
  }

  predicate InPath(w: World, path: string, context: Context, n: Node) {
    if '/' in path then n.context == context && Resolves(w, w.locate(context, path), n.file)
    else InSearch(w, w.search(path, context), context, n)
  }

  predicate InCommand(w: World, command: Command, context: Context, n: Node) {
    match command
    case Candidate(path) => InPath(w, path, context, n)
    case SearchCandidates(paths) => InSearch(w, paths, context, n)
    case Missing => false
  }

  predicate RunsEnv(w: World, path: string, context: Context) {
    var resolution := w.resolve(w.locate(context, path));
    '/' in path && resolution.Found? && w.executable(resolution.file) && w.isEnv(resolution.file)
  }

  /** The command that `env` runs, when the interpreter of a shebang line is a file that is env. */
  function CommandOfEnv(w: World, path: string, argument: Option<string>, context: Context)
    : Option<(Command, Context)>
  {
    if RunsEnv(w, path, context) && argument.Some? then
      match w.envCommand(argument.value, context)
      case Ok(command) => command
      case Err(_) => None
    else None
  }

  /** The nodes that an interpreter found in `context` stands for. */
  predicate IsTarget(w: World, i: Interpreter, context: Context, n: Node) {
    match i
    case Plain(command) => InCommand(w, command, context, n)
    case EnvCommand(command, inner) => InCommand(w, command, inner, n)
    case ShebangCandidate(path, argument) =>
      || InPath(w, path, context, n)
      || (var command := CommandOfEnv(w, path, argument, context);
          command.Some? && InCommand(w, command.value.0, command.value.1, n))
    case Unresolved => false
  }

  predicate IsSearched(w: World, command: Command, context: Context, n: Node) {
    match command
    case Candidate(path) => '/' !in path && InSearch(w, w.search(path, context), context, n)
    case SearchCandidates(paths) => InSearch(w, paths, context, n)
    case Missing => false
  }

  /** Those of the targets that are looked for by name. */
  predicate IsSearchTarget(w: World, i: Interpreter, context: Context, n: Node) {
    match i
    case Plain(command) => IsSearched(w, command, context, n)
    case EnvCommand(command, inner) => IsSearched(w, command, inner, n)
    case ShebangCandidate(path, argument) =>
      || IsSearched(w, Candidate(path), context, n)
      || (var command := CommandOfEnv(w, path, argument, context);
          command.Some? && IsSearched(w, command.value.0, command.value.1, n))
    case Unresolved => false
  }

  ghost predicate TargetsIn(w: World, i: Interpreter, context: Context, nodes: iset<Node>) {
    forall n :: IsTarget(w, i, context, n) ==> n in nodes
  }

  ghost predicate TargetsVisited(w: World, i: Interpreter, context: Context, visited: set<Node>) {
    forall n :: IsTarget(w, i, context, n) ==> n in visited
  }

  predicate HasEdge(w: World, n: Node, m: Node) {
    && w.executable(n.file)
    && w.interpreters(n).Ok?
    && exists i <- w.interpreters(n).value :: IsTarget(w, i, n.context, m)
  }

  /** Everything that can be reached from a member is a member. */
  ghost predicate ClosedUnderEdges(w: World, nodes: iset<Node>) {
    forall n, m :: n in nodes && HasEdge(w, n, m) ==> m in nodes
  }

  ghost predicate SearchTargetsIn(w: World, i: Interpreter, context: Context, nodes: iset<Node>) {
    forall n :: IsSearchTarget(w, i, context, n) ==> n in nodes
  }

  /** Two closed sets, the second holding at least what searches by name lead to from the first. */
  ghost predicate Maps(w: World, nodes: iset<Node>, loose: iset<Node>) {
    && ClosedUnderEdges(w, nodes) && ClosedUnderEdges(w, loose)
    && forall n, i :: n in nodes && w.executable(n.file) && w.interpreters(n).Ok? && i in w.interpreters(n).value ==>
         SearchTargetsIn(w, i, n.context, loose)
  }

  lemma MapsWithin(w: World, nodes: iset<Node>, loose: iset<Node>)
    requires Maps(w, nodes, loose)
    ensures Maps(w, nodes * loose, loose)
  {
  }

  ghost predicate Covers(w: World, visited: set<Node>, n: Node) {
    forall m :: HasEdge(w, n, m) ==> m in visited
  }

  // ---------------------------------------------------------------- where nothing can fail

  predicate SearchSound(w: World, paths: seq<string>) {
    forall path <- paths :: !w.resolve(path).Broken?
  }

  predicate PathSound(w: World, path: string, context: Context, mode: Mode, thorough: bool) {
    if '/' in path then
      var resolution := w.resolve(w.locate(context, path));
      if mode == Strict then resolution.Found? && w.executable(resolution.file) else !resolution.Broken?
    else
      && (mode == Strict ==> w.search(path, context) != [])
      && (thorough ==> SearchSound(w, w.search(path, context)))
  }

  predicate CommandSound(w: World, command: Command, context: Context, mode: Mode, thorough: bool) {
    match command
    case Candidate(path) => PathSound(w, path, context, mode, thorough)
    case SearchCandidates(paths) => thorough ==> SearchSound(w, paths)
    case Missing => mode == Auto
  }

  predicate EnvSound(w: World, argument: Option<string>, context: Context, mode: Mode, thorough: bool) {
    && argument.Some?
    && var command := w.envCommand(argument.value, context);
      && command.Ok?
      && (command.value.Some? ==>
            CommandSound(w, command.value.value.0, command.value.value.1, mode, thorough))
  }

  /** In strict mode every file that is looked for can be opened and executed, and a search by name
      comes upon something; otherwise nothing fails but for being missing, out of reach or not
      executable. If `thorough`, nor does anything that a search by name comes upon. */
  predicate InterpreterSound(w: World, i: Interpreter, context: Context, mode: Mode, thorough: bool) {
    match i
    case Plain(command) => CommandSound(w, command, context, mode, thorough)
    case EnvCommand(command, inner) => CommandSound(w, command, inner, mode, thorough)
    case ShebangCandidate(path, argument) =>
      && PathSound(w, path, context, mode, thorough)
      && (RunsEnv(w, path, context) ==> EnvSound(w, argument, context, mode, thorough))
    case Unresolved => mode == Auto
  }

  predicate NodeSound(w: World, n: Node, mode: Mode, thorough: bool) {
    w.executable(n.file) ==>
      && w.interpreters(n).Ok?
      && forall i <- w.interpreters(n).value :: InterpreterSound(w, i, n.context, mode, thorough)
  }

  ghost predicate Flawless(w: World, nodes: iset<Node>, mode: Mode) {
    forall n :: n in nodes ==> NodeSound(w, n, mode, true)
  }

  lemma StrictIsSound(w: World, nodes: iset<Node>)
    ensures Flawless(w, nodes, Strict) ==> Flawless(w, nodes, Auto)
  {
    if Flawless(w, nodes, Strict) {
      forall n, i | n in nodes && w.executable(n.file) && i in w.interpreters(n).value
        ensures InterpreterSound(w, i, n.context, Auto, true)
      {
        assert InterpreterSound(w, i, n.context, Strict, true);
      }
    }
  }

  ghost predicate AllCovered(w: World, visited: set<Node>, open: set<Node>) {
    forall n <- visited :: n in open || Covers(w, visited, n)
  }

  /** New grants are visited files that can be executed or were named outright. */
  ghost predicate GrantsFit(w: World, grants: set<string>, listed: set<string>, visited: set<Node>) {
    forall g <- grants :: (w.executable(g) || g in listed) && exists n <- visited :: n.file == g
  }

  lemma EdgesStayInside(w: World, nodes: iset<Node>, loose: iset<Node>, n: Node, i: Interpreter)
    requires Maps(w, nodes, loose) && n in nodes && w.executable(n.file)
    requires w.interpreters(n).Ok? && i in w.interpreters(n).value
    ensures TargetsIn(w, i, n.context, nodes) && SearchTargetsIn(w, i, n.context, loose)
  {
    assert forall m :: IsTarget(w, i, n.context, m) ==> HasEdge(w, n, m);
  }

  lemma FlawlessInterpreter(w: World, nodes: iset<Node>, n: Node, i: Interpreter, mode: Mode)
    requires n in nodes && w.executable(n.file) && w.interpreters(n).Ok? && i in w.interpreters(n).value
    ensures Flawless(w, nodes, mode) ==> InterpreterSound(w, i, n.context, mode, true)
  {
  }

  /** Everything that the first `k` interpreters stand for. */
  ghost predicate FirstVisited(w: World, list: seq<Interpreter>, k: nat, context: Context, visited: set<Node>)
    requires k <= |list|
  {
    k == 0 || (FirstVisited(w, list, k - 1, context, visited) && TargetsVisited(w, list[k - 1], context, visited))
  }

  lemma {:induction false} StaysVisited(w: World, list: seq<Interpreter>, k: nat, context: Context, visited: set<Node>,
      later: set<Node>)
    requires k <= |list| && FirstVisited(w, list, k, context, visited) && visited <= later
    ensures FirstVisited(w, list, k, context, later)
  {
    if k > 0 {
      StaysVisited(w, list, k - 1, context, visited, later);
    }
  }

  lemma {:induction false} EachVisited(w: World, list: seq<Interpreter>, k: nat, context: Context, visited: set<Node>)
    requires k <= |list| && FirstVisited(w, list, k, context, visited)
    ensures forall i <- list[..k] :: TargetsVisited(w, i, context, visited)
  {
    if k > 0 {
      EachVisited(w, list, k - 1, context, visited);
      assert list[..k] == list[..k - 1] + [list[k - 1]];
    }
  }

  lemma CoversAll(w: World, visited: set<Node>, n: Node)
    requires w.executable(n.file) && w.interpreters(n).Ok? ==>
      var list := w.interpreters(n).value; FirstVisited(w, list, |list|, n.context, visited)
    ensures Covers(w, visited, n)
  {
    if w.executable(n.file) && w.interpreters(n).Ok? {
      var list := w.interpreters(n).value;
      EachVisited(w, list, |list|, n.context, visited);
      assert list[..|list|] == list;
    }
  }

  lemma CoveredWithOneMore(w: World, visited: set<Node>, open: set<Node>, node: Node)
    requires AllCovered(w, visited, open)
    ensures AllCovered(w, visited + {node}, open + {node})
  {
  }

  lemma CoveredWhenDone(w: World, visited: set<Node>, open: set<Node>, node: Node)
    requires AllCovered(w, visited, open) && Covers(w, visited, node)
    ensures AllCovered(w, visited, open - {node})
  {
  }

  lemma GrantsFitWithOneMore(w: World, grants: set<string>, listed: set<string>, visited: set<Node>, node: Node)
    requires GrantsFit(w, grants, listed, visited) && (w.executable(node.file) || node.file in listed)
    ensures GrantsFit(w, grants + {node.file}, listed, visited + {node})
    ensures GrantsFit(w, grants, listed, visited + {node})
  {
    assert node in visited + {node};
  }

  lemma {:induction false} SubsetSize<T>(a: set<T>, b: set<T>)
    requires a <= b
    ensures |a| <= |b|
  {
    if a != {} {
      var x :| x in a;
      SubsetSize(a - {x}, b - {x});
    }
  }

  lemma OneMore<T>(a: set<T>, base: set<T>, x: T)
    ensures |a + {x} - base| <= |a - base| + 1
  {
    SubsetSize(a + {x} - base, a - base + {x});
  }

  /** At most 256 new grants, each a visited file that can be executed or was named outright; and
      every node that is done with has its edges covered. */
  ghost predicate IsValid(w: World, base: set<string>, listed: set<string>, unique: set<string>, visited: set<Node>,
      open: set<Node>, skipped: bool)
  {
    && base <= unique && open <= visited
    && |unique - base| <= |visited| && |unique - base| <= VISIT_LIMIT
    && GrantsFit(w, unique - base, listed, visited)
    && (|visited| <= VISIT_LIMIT ==> forall n <- visited :: n.file in unique)
    && (|visited| > VISIT_LIMIT ==> skipped)
    && (!skipped ==> AllCovered(w, visited, open))
  }

  lemma ValidWhenRecorded(w: World, base: set<string>, listed: set<string>, unique: set<string>, visited: set<Node>,
      open: set<Node>, skipped: bool, node: Node)
    requires IsValid(w, base, listed, unique, visited, open, skipped)
    requires node !in visited && (w.executable(node.file) || node.file in listed)
    ensures |visited + {node}| <= VISIT_LIMIT ==>
      IsValid(w, base, listed, unique + {node.file}, visited + {node}, open + {node}, skipped)
    ensures |visited + {node}| > VISIT_LIMIT ==> IsValid(w, base, listed, unique, visited + {node}, open, true)
  {
    GrantsFitWithOneMore(w, unique - base, listed, visited, node);
    if |visited + {node}| <= VISIT_LIMIT {
      OneMore(unique, base, node.file);
      GrantsFitFewer(w, unique - base + {node.file}, unique + {node.file} - base, listed, visited + {node});
      if !skipped {
        CoveredWithOneMore(w, visited, open, node);
      }
    }
  }

  lemma GrantsFitFewer(w: World, grants: set<string>, fewer: set<string>, listed: set<string>, visited: set<Node>)
    requires GrantsFit(w, grants, listed, visited) && fewer <= grants
    ensures GrantsFit(w, fewer, listed, visited)
  {
  }

  // ---------------------------------------------------------------- the search

  /** The grants and the visits of one root. `base` are the grants it started with and `listed` the
      file that was named outright; `open` are the nodes whose discovery is under way, and `skipped`
      says that some discovery has failed. `lenient` are the nodes that were first visited in the
      course of a search by name, where failures are passed over, and `loose` what it may lead to. */
  class Search {
    ghost const base: set<string>
    ghost const listed: set<string>
    ghost const loose: iset<Node>
    var unique: set<string>
    var visited: set<Node>
    ghost var open: set<Node>
    ghost var skipped: bool
    ghost var lenient: set<Node>

    constructor (unique: set<string>, ghost listed: set<string>, ghost loose: iset<Node>)
      ensures base == unique && this.listed == listed && this.loose == loose
      ensures this.unique == unique && visited == {} && open == {} && !skipped && lenient == {}
    {
      base, this.listed, this.loose := unique, listed, loose;
      this.unique, visited, open, skipped, lenient := unique, {}, {}, false, {};
    }

    ghost predicate Valid(w: World)
      reads this
    {
      IsValid(w, base, listed, unique, visited, open, skipped) && lenient <= visited
    }

    ghost function Room(): nat
      reads this
    {
      if |visited| <= VISIT_LIMIT then VISIT_LIMIT + 1 - |visited| else 0
    }

    /** What every part of the search keeps: only members of `nodes` are visited. */
    twostate predicate Advances(w: World, nodes: iset<Node>)
      reads this
    {
      && Valid(w)
      && old(unique) <= unique && old(visited) <= visited && |old(visited)| <= |visited|
      && open == old(open)
      && (old(skipped) ==> skipped)
      && (forall n <- visited :: n in old(visited) || n in nodes)
      && old(lenient) <= lenient && (forall n <- lenient :: n in old(lenient) || n !in old(visited))
    }

    /** A failure has a cause: a file or command in the graph that cannot be inspected, or too many
        visits. */
    twostate predicate FailsOnlyIf(w: World, nodes: iset<Node>, mode: Mode, flaw: bool)
      reads this
    {
      skipped ==> old(skipped) || !Flawless(w, nodes, mode) || flaw || |visited| > VISIT_LIMIT
    }

    /** What the result says, `fine` being that the discovery finds nothing wrong itself. After a
        strict success every newly visited node has been found sound, save those come upon by a
        search; each failure has one of these causes. */
    twostate predicate Reports(w: World, mode: Mode, ok: bool, fine: bool)
      reads this
    {
      && (ok ==> fine)
      && (!ok ==> !fine || |visited| > VISIT_LIMIT || (mode == Strict && exists n <- visited :: FoundFlawed(w, n)))
      && (mode == Strict ==>
            && (forall n <- lenient :: n in old(lenient) || n in loose)
            && (ok ==> forall n <- visited :: n in old(visited) || n in lenient || NodeSound(w, n, Strict, false)))
    }

    twostate predicate FoundFlawed(w: World, n: Node)
      reads this
    {
      n !in old(visited) && n !in lenient && !NodeSound(w, n, Strict, false)
    }

    method InsertResolved(w: World, file: string, mode: Mode, context: Context, ghost nodes: iset<Node>)
      returns (r: Result<(), Failure>)
      requires Valid(w) && Maps(w, nodes, loose) && Node(file, context) in nodes
      requires w.executable(file) || file in listed
      modifies this
      ensures Advances(w, nodes)
      ensures FailsOnlyIf(w, nodes, mode, false) && Reports(w, mode, r.Ok?, true)
      ensures r.Err? ==> skipped
      ensures Node(file, context) in visited
      ensures Node(file, context) !in old(visited) ==>
        && Node(file, context) !in lenient
        && (|old(visited)| < VISIT_LIMIT ==> file in unique)
      ensures mode == Auto && r.Err? ==> |old(visited)| >= VISIT_LIMIT
      decreases Room(), 0
    {
      var node := Node(file, context);
      if node in visited {
        return Ok(());
      }
      assert node !in open;
      var recorded := Record(w, node);
      if !recorded {
        return Err(TooManyVisits);
      }
      r := Explore(w, node, mode, nodes);
    }

    /** Discovers what a file that has just been granted needs. */
    method Explore(w: World, node: Node, mode: Mode, ghost nodes: iset<Node>) returns (r: Result<(), Failure>)
      requires Valid(w) && Maps(w, nodes, loose) && node in nodes && node in open
      modifies this
      ensures Valid(w) && open == old(open) - {node}
      ensures old(unique) <= unique && old(visited) <= visited && |old(visited)| <= |visited|
      ensures (old(skipped) ==> skipped) && (forall n <- visited :: n in old(visited) || n in nodes)
      ensures old(lenient) <= lenient && (forall n <- lenient :: n in old(lenient) || n !in old(visited))
      ensures FailsOnlyIf(w, nodes, mode, false)
      ensures Reports(w, mode, r.Ok?, mode == Auto || NodeSound(w, node, Strict, false))
      ensures r.Err? ==> skipped
      ensures mode == Auto ==> r.Ok?
      decreases Room(), 10
    {
      var interpreters := if w.executable(node.file) then w.interpreters(node) else Ok([]);
      var discovery := DiscoverAll(w, node, interpreters, mode, nodes);
      Close(w, node);
      r := if mode == Auto then Ok(()) else discovery;
    }

    /** Visits a new node and, within the limit, grants its file. */
    method Record(w: World, node: Node) returns (recorded: bool)
      requires Valid(w) && node !in visited && (w.executable(node.file) || node.file in listed)
      modifies this
      ensures Valid(w)
      ensures lenient == old(lenient)
      ensures visited == old(visited) + {node} && recorded == (|visited| <= VISIT_LIMIT)
      ensures recorded ==> unique == old(unique) + {node.file} && open == old(open) + {node} && skipped == old(skipped)
      ensures !recorded ==> unique == old(unique) && open == old(open) && skipped
    {
      hide IsValid;
      ValidWhenRecorded(w, base, listed, unique, visited, open, skipped, node);
      visited := visited + {node};
      if |visited| > VISIT_LIMIT {
        skipped := true;
        return false;
      }
      open := open + {node};
      unique := unique + {node.file};
      recorded := true;
    }

    /** A discovery has failed. */
    ghost method Skip(w: World)
      requires Valid(w)
      modifies this`skipped
      ensures Valid(w) && skipped
    {
      skipped := true;
    }

    ghost method Close(w: World, node: Node)
      requires Valid(w) && (!skipped ==> Covers(w, visited, node))
      modifies this`open
      ensures Valid(w) && open == old(open) - {node}
    {
      if !skipped {
        CoveredWhenDone(w, visited, open, node);
      }
      open := open - {node};
    }

    /** The loop over what a file was found to need. */
    method DiscoverAll(w: World, node: Node, interpreters: Result<seq<Interpreter>, Failure>, mode: Mode,
        ghost nodes: iset<Node>)
      returns (r: Result<(), Failure>)
      requires Valid(w) && Maps(w, nodes, loose) && node in nodes && node in open
      requires interpreters == if w.executable(node.file) then w.interpreters(node) else Ok([])
      modifies this
      ensures Advances(w, nodes)
      ensures FailsOnlyIf(w, nodes, mode, false) && Reports(w, mode, r.Ok?, NodeSound(w, node, mode, false))
      ensures r.Err? ==> skipped
      ensures !skipped ==> Covers(w, visited, node)
      decreases Room(), 9
    {
      hide IsValid;
      if interpreters.Err? {
        Skip(w);
        return Err(interpreters.error);
      }
      var list := interpreters.value;
      for k := 0 to |list|
        invariant Advances(w, nodes) && FailsOnlyIf(w, nodes, mode, false)
        invariant !skipped ==> FirstVisited(w, list, k, node.context, visited)
        invariant Reports(w, mode, true, true)
        invariant forall j :: 0 <= j < k ==> InterpreterSound(w, list[j], node.context, mode, false)
      {
        ghost var before := visited;
        assert list[k] in list;
        FlawlessInterpreter(w, nodes, node, list[k], mode);
        EdgesStayInside(w, nodes, loose, node, list[k]);
        var inserted := InsertInterpreter(w, list[k], mode, node.context, nodes);
        if inserted.Err? {
          return inserted;
        }
        if !skipped {
          StaysVisited(w, list, k, node.context, before, visited);
        }
      }
      if !skipped {
        CoversAll(w, visited, node);
      }
      r := Ok(());
    }

    ghost function Rank(i: Interpreter): nat {
      match i
      case ShebangCandidate(_, _) => 8
      case EnvCommand(_, _) => 6
      case _ => 5
    }

    method InsertInterpreter(w: World, i: Interpreter, mode: Mode, context: Context, ghost nodes: iset<Node>)
      returns (r: Result<(), Failure>)
      requires Valid(w) && Maps(w, nodes, loose)
      requires TargetsIn(w, i, context, nodes) && SearchTargetsIn(w, i, context, loose)
      modifies this
      ensures Advances(w, nodes)
      ensures FailsOnlyIf(w, nodes, mode, !InterpreterSound(w, i, context, mode, true))
      ensures Reports(w, mode, r.Ok?, InterpreterSound(w, i, context, mode, false))
      ensures r.Err? ==> skipped
      ensures !skipped ==> TargetsVisited(w, i, context, visited)
      decreases Room(), Rank(i)
    {
      hide IsValid;
      match i
      case Plain(Candidate(path)) =>
        r := InsertCandidate(w, path, None, mode, context, nodes);
      case Plain(SearchCandidates(paths)) =>
        InsertSearch(w, paths, mode, context, nodes);
        r := Ok(());
      case ShebangCandidate(path, argument) =>
        r := InsertCandidate(w, path, Some(argument), mode, context, nodes);
      case EnvCommand(command, inner) =>
        r := InsertInterpreter(w, Plain(command), mode, inner, nodes);
      case Plain(Missing) =>
        if mode == Auto {
          return Ok(());
        }
        Skip(w);
        r := Err(NotInPath);
      case Unresolved =>
        if mode == Auto {
          return Ok(());
        }
        Skip(w);
        r := Err(NotResolved);
    }

    method InsertCandidate(w: World, path: string, shebang: Option<Option<string>>, mode: Mode, context: Context,
        ghost nodes: iset<Node>)
      returns (r: Result<(), Failure>)
      requires Valid(w) && Maps(w, nodes, loose)
      requires var i := if shebang.Some? then ShebangCandidate(path, shebang.value) else Plain(Candidate(path));
        TargetsIn(w, i, context, nodes) && SearchTargetsIn(w, i, context, loose)
      modifies this
      ensures Advances(w, nodes)
      ensures var i := if shebang.Some? then ShebangCandidate(path, shebang.value) else Plain(Candidate(path));
        && FailsOnlyIf(w, nodes, mode, !InterpreterSound(w, i, context, mode, true))
        && Reports(w, mode, r.Ok?, InterpreterSound(w, i, context, mode, false))
      ensures r.Err? ==> skipped
      ensures var i := if shebang.Some? then ShebangCandidate(path, shebang.value) else Plain(Candidate(path));
        !skipped ==> TargetsVisited(w, i, context, visited)
      decreases Room(), if shebang.Some? then 7 else 4
    {
      hide IsValid;
      if '/' !in path {
        r := InsertCommand(w, path, mode, context, nodes);
        return;
      }
      var resolution := w.resolve(w.locate(context, path));
      if !resolution.Found? {
        if mode == Auto && resolution.Unavailable? {
          return Ok(());
        }
        Skip(w);
        return Err(NotResolved);
      }
      if !w.executable(resolution.file) {
        if mode == Auto {
          return Ok(());
        }
        Skip(w);
        return Err(NotExecutable);
      }
      var node := Node(resolution.file, context);
      assert InPath(w, path, context, node);
      r := InsertResolved(w, resolution.file, mode, context, nodes);
      if r.Err? || shebang.None? || !w.isEnv(resolution.file) {
        return;
      }
      if shebang.value.None? {
        Skip(w);
        return Err(NotUtf8);
      }
      var command := w.envCommand(shebang.value.value, context);
      if command.Err? {
        Skip(w);
        return Err(command.error);
      }
      if command.value.Some? {
        var (inner, innerContext) := command.value.value;
        r := InsertInterpreter(w, EnvCommand(inner, innerContext), mode, context, nodes);
      }
    }

    method InsertCommand(w: World, raw: string, mode: Mode, context: Context, ghost nodes: iset<Node>)
      returns (r: Result<(), Failure>)
      requires Valid(w) && Maps(w, nodes, loose) && '/' !in raw
      requires forall n :: InSearch(w, w.search(raw, context), context, n) ==>
        n in nodes && (mode == Strict ==> n in loose)
      modifies this
      ensures Advances(w, nodes)
      ensures FailsOnlyIf(w, nodes, mode, !PathSound(w, raw, context, mode, true))
      ensures Reports(w, mode, r.Ok?, PathSound(w, raw, context, mode, false))
      ensures r == if PathSound(w, raw, context, mode, false) then Ok(()) else Err(NotInPath)
      ensures r.Err? ==> skipped
      ensures !skipped ==> forall n :: InSearch(w, w.search(raw, context), context, n) ==> n in visited
      decreases Room(), 3
    {
      hide IsValid;
      var candidates := w.search(raw, context);
      if candidates == [] && mode == Strict {
        Skip(w);
        return Err(NotInPath);
      }
      InsertSearch(w, candidates, mode, context, nodes);
      r := Ok(());
    }

    /** In a strict discovery a search by name leads to nothing outside `loose`. */
    method InsertSearch(w: World, paths: seq<string>, mode: Mode, context: Context, ghost nodes: iset<Node>)
      requires Valid(w) && Maps(w, nodes, loose)
      requires forall n :: InSearch(w, paths, context, n) ==> n in nodes && (mode == Strict ==> n in loose)
      modifies this
      ensures Advances(w, nodes)
      ensures FailsOnlyIf(w, nodes, mode, !SearchSound(w, paths)) && Reports(w, mode, true, true)
      ensures !skipped ==> forall n :: InSearch(w, paths, context, n) ==> n in visited
      decreases Room(), 2
    {
      MapsWithin(w, nodes, loose);
      StrictIsSound(w, nodes);
      InsertSearchCandidates(w, paths, context, if mode == Strict then nodes * loose else nodes);
    }

    /** A candidate that cannot be inspected does not keep the others from being found. */
    method InsertSearchCandidates(w: World, paths: seq<string>, context: Context, ghost nodes: iset<Node>)
      requires Valid(w) && Maps(w, nodes, loose)
      requires forall n :: InSearch(w, paths, context, n) ==> n in nodes
      modifies this
      ensures Advances(w, nodes)
      ensures FailsOnlyIf(w, nodes, Auto, !SearchSound(w, paths))
      ensures !skipped ==> forall n :: InSearch(w, paths, context, n) ==> n in visited
      ensures forall n <- visited :: n in old(visited) || n in lenient
      ensures forall n <- lenient :: n in old(lenient) || n in nodes
      decreases Room(), 1
    {
      hide IsValid;
      for k := 0 to |paths|
        invariant Advances(w, nodes) && FailsOnlyIf(w, nodes, Auto, !SearchSound(w, paths))
        invariant !skipped ==>
          forall j, file :: 0 <= j < k && Resolves(w, paths[j], file) ==> Node(file, context) in visited
      {
        var resolution := w.resolve(paths[k]);
        if resolution.Broken? {
          assert paths[k] in paths && !SearchSound(w, paths);
          Skip(w);
        } else if resolution.Found? && w.executable(resolution.file) {
          assert paths[k] in paths && Resolves(w, paths[k], resolution.file);
          assert InSearch(w, paths, context, Node(resolution.file, context));
          var _ := InsertResolved(w, resolution.file, Auto, context, nodes);
        }
      }
      lenient := lenient + (visited - old(visited));
    }

    method InsertRoot(w: World, raw: string, mode: Mode, context: Context, ghost nodes: iset<Node>)
      returns (r: Result<(), Failure>)
      requires Valid(w) && Maps(w, nodes, loose) && listed == Listed(w, raw, mode)
      requires forall n :: IsRoot(w, raw, mode, context, n) ==>
        n in nodes && (mode == Strict && '/' !in raw ==> n in loose)
      modifies this
      ensures Advances(w, nodes)
      ensures FailsOnlyIf(w, nodes, mode, !RootSound(w, raw, mode, context, true))
      ensures Reports(w, mode, r.Ok?, RootSound(w, raw, mode, context, false))
      ensures !RootSound(w, raw, mode, context, false) ==> r == Err(if '/' in raw then NotResolved else NotInPath)
      ensures RootSound(w, raw, mode, context, false) ==>
        '/' !in raw || (mode == Auto && |old(visited)| < VISIT_LIMIT) ==> r.Ok?
      ensures old(visited) == {} ==> forall n :: '/' in raw && IsRoot(w, raw, mode, context, n) ==>
        n in visited && n !in lenient && n.file in unique
      ensures r.Err? ==> skipped
      ensures !skipped ==> forall n :: IsRoot(w, raw, mode, context, n) ==> n in visited
    {
      if '/' !in raw {
        r := InsertCommand(w, raw, mode, context, nodes);
        return;
      }
      var resolution := if mode == Strict then w.resolve(raw) else w.main(raw);
      if !resolution.Found? {
        if mode == Auto && resolution.Unavailable? {
          return Ok(());
        }
        Skip(w);
        return Err(NotResolved);
      }
      if mode == Auto && !w.executable(resolution.file) {
        return Ok(());
      }
      assert IsRoot(w, raw, mode, context, Node(resolution.file, context));
      r := InsertResolved(w, resolution.file, mode, context, nodes);
    }
  }

  // ---------------------------------------------------------------- one root

  /** What the search starts from: a name is looked up, a path is taken as it is. */
  predicate IsRoot(w: World, raw: string, mode: Mode, context: Context, n: Node) {
    if '/' !in raw then InSearch(w, w.search(raw, context), context, n)
    else
      && n.context == context
      && if mode == Strict then w.resolve(raw) == Found(n.file)
         else w.main(raw) == Found(n.file) && w.executable(n.file)
  }

  /** The one file that is granted whether or not it can be executed. */
  function Listed(w: World, raw: string, mode: Mode): set<string> {
    if '/' in raw && mode == Strict && w.resolve(raw).Found? then {w.resolve(raw).file} else {}
  }

  predicate RootSound(w: World, raw: string, mode: Mode, context: Context, thorough: bool) {
    if '/' !in raw then PathSound(w, raw, context, mode, thorough)
    else if mode == Strict then w.resolve(raw).Found? else !w.main(raw).Broken?
  }

  function Files(nodes: set<Node>): set<string> {
    set n | n in nodes :: n.file
  }

  lemma GrantsAreFiles(w: World, unique: set<string>, granted: set<string>, listed: set<string>, visited: set<Node>)
    requires unique <= granted && GrantsFit(w, granted - unique, listed, visited)
    requires forall n <- visited :: n.file in granted
    ensures granted == unique + Files(visited)
  {
    forall g | g in granted
      ensures g in unique + Files(visited)
    {
      if g !in unique {
        assert g in granted - unique;
        var n :| n in visited && n.file == g;
        assert n.file in Files(visited);
      }
    }
    assert Files(visited) <= granted;
  }

  /** Grants for one path or command. Of every set of nodes that holds the roots and all they lead
      to: each new grant is a file of it that can be executed or was listed. If nothing failed the
      visited nodes are such a set themselves, and exactly their files are granted; and something
      fails only for a file or command in that set that cannot be inspected, or past the limit. */
  method InsertExecPath(w: World, unique: set<string>, raw: string, mode: Mode, context: Context,
      ghost nodes: iset<Node>, ghost loose: iset<Node>)
    returns (r: Result<(), Failure>, granted: set<string>, ghost visited: set<Node>, ghost lenient: set<Node>,
      ghost complete: bool)
    requires Maps(w, nodes, loose)
    requires forall n :: IsRoot(w, raw, mode, context, n) ==>
      n in nodes && (mode == Strict && '/' !in raw ==> n in loose)
    ensures unique <= granted && |granted - unique| <= 256
    ensures forall n <- visited :: n in nodes
    ensures forall g <- granted - unique ::
      (w.executable(g) || g in Listed(w, raw, mode)) && exists n <- visited :: n.file == g
    ensures complete ==>
      && (forall n :: IsRoot(w, raw, mode, context, n) ==> n in visited)
      && (forall n <- visited :: Covers(w, visited, n))
      && granted == unique + Files(visited)
    ensures r.Err? ==> !complete
    ensures !complete ==>
      !Flawless(w, nodes, mode) || !RootSound(w, raw, mode, context, true) || |visited| > VISIT_LIMIT
    ensures forall n :: '/' in raw && IsRoot(w, raw, mode, context, n) ==>
      n in visited && n !in lenient && n.file in granted
    ensures mode == Auto ==> (r.Err? <==> '/' in raw && w.main(raw).Broken?)
    ensures mode == Strict ==>
      && (forall n <- lenient :: n in loose)
      && (r.Ok? ==>
            && (if '/' in raw then w.resolve(raw).Found? else w.search(raw, context) != [])
            && forall n <- visited :: n in lenient || NodeSound(w, n, Strict, false))
      && (r.Err? ==>
            || (if '/' in raw then !w.resolve(raw).Found? else w.search(raw, context) == [])
            || |visited| > VISIT_LIMIT
            || exists n <- visited :: n !in lenient && !NodeSound(w, n, Strict, false))
    ensures mode == Strict && '/' in raw && !w.resolve(raw).Found? ==> r == Err(NotResolved)
    ensures mode == Strict && '/' !in raw ==> if w.search(raw, context) == [] then r == Err(NotInPath) else r.Ok?
  {
    var search := new Search(unique, Listed(w, raw, mode), loose);
    r := search.InsertRoot(w, raw, mode, context, nodes);
    granted, visited, lenient, complete := search.unique, search.visited, search.lenient, !search.skipped;
    if complete {
      GrantsAreFiles(w, unique, granted, Listed(w, raw, mode), visited);
    }
  }
}
