/** The language that command arguments are written in (src/platform/unix/child.rs):
    a tree of pieces, its printed form and its meaning, and the proofs that the
    scanners and the expander of module Expansion read every argument that way. */
module TemplateLanguage {
  import opened Results
  import opened Text
  import opened Expansion

  // ------------------------------------------------- the language itself

  /** One construct of an argument. `Text` is an ordinary character, `Dollar` a `$` that starts
      nothing, `Escape` is `$$`, `Quoted` is `$${...}`, `Group` a brace pair inside `Quoted`, and
      `Braces` is `${...}`. */
  datatype Piece =
    | Text(c: char)
    | Dollar
    | Escape
    | Quoted(inner: seq<Piece>)
    | Group(inner: seq<Piece>)
    | Braces(body: seq<Piece>)

  type Template = seq<Piece>

  /** Where a template stands: the whole argument, between `${` and `}`, or in a quoted literal. */
  datatype Place = Top | Body | InQuote

  function PrintPiece(p: Piece): (s: string)
    ensures s != ""
    decreases p
  {
    match p
    case Text(c) => [c]
    case Dollar => "$"
    case Escape => "$$"
    case Quoted(inner) => "$${" + Print(inner) + "}"
    case Group(inner) => "{" + Print(inner) + "}"
    case Braces(body) => "${" + Print(body) + "}"
  }

  function Print(t: Template): string
    decreases t
  {
    if t == [] then "" else PrintPiece(t[0]) + Print(t[1..])
  }

  predicate PieceFits(p: Piece, place: Place)
    decreases p
  {
    match p
    case Text(c) =>
      && c != '$'
      && (place != Top ==> c != '}')
      && (place == InQuote ==> c != '{')
    case Dollar => true
    case Escape => true
    case Quoted(inner) => Fits(inner, InQuote)
    case Group(inner) => place == InQuote && Fits(inner, InQuote)
    case Braces(body) => Fits(body, Body)
  }

  /** The printed piece keeps its meaning in front of `after`. */
  predicate Joins(p: Piece, place: Place, after: string) {
    && (p.Dollar? && after != "" ==> after[0] != '$' && after[0] != '{')
    && (p.Escape? && place != Top && after != "" ==> after[0] != '{')
  }

  /** Well-formed templates: exactly what can be written in `place`. */
  predicate Fits(t: Template, place: Place)
    decreases t
  {
    t != [] ==>
      && PieceFits(t[0], place)
      && Joins(t[0], place, Print(t[1..]))
      && Fits(t[1..], place)
  }

  predicate AtMark(t: Template) {
    |t| > 1 && t[0] == Text(':') && t[1] == Text('-')
  }

  /** Index of the first `:-` written directly in `body`. */
  function DefaultMark(body: Template): (mark: Option<nat>)
    ensures mark.Some? ==> mark.value + 2 <= |body|
  {
    if |body| < 2 then None
    else if AtMark(body) then Some(0)
    else
      match DefaultMark(body[1..])
      case None => None
      case Some(i) => Some(i + 1)
  }

  /** The meaning of a template; values taken from the environment are copied, never read again. */
  function Denote(t: Template, env: Environment, depth: nat): Expanded
    decreases t, 1
  {
    if depth > MAX_ENV_EXPANSION_DEPTH then Err(NestingTooDeep) else Meaning(t, env, depth)
  }

  function Meaning(t: Template, env: Environment, depth: nat): Expanded
    decreases t, 0
  {
    if t == [] then Ok("")
    else Then(PieceMeaning(t[0], env, depth), Meaning(t[1..], env, depth))
  }

  function PieceMeaning(p: Piece, env: Environment, depth: nat): Expanded
    decreases p
  {
    match p
    case Text(c) => Ok([c])
    case Dollar => Ok("$")
    case Escape => Ok("$")
    case Quoted(inner) => Then(Ok("${"), Then(Meaning(inner, env, depth), Ok("}")))
    case Group(inner) => Then(Ok("{"), Then(Meaning(inner, env, depth), Ok("}")))
    case Braces(body) =>
      match DefaultMark(body)
      case None =>
        var name := Print(body);
        if IsValidEnvName(name) then Lookup(name, env, Ok(""), Ok("")) else Err(Unsupported(name))
      case Some(i) =>
        var name, default := Print(body[..i]), Denote(body[i + 2..], env, depth + 1);
        if IsValidEnvName(name) then Lookup(name, env, default, default) else Err(InvalidName(name))
  }

  /** The value of a variable, with the answers for one that is empty and for one that is not set. */
  function Lookup(name: string, env: Environment, empty: Expanded, absent: Expanded): Expanded {
    if name !in env then absent
    else match env[name]
      case Unicode(text) => if text == "" then empty else Ok(text)
      case NotUnicode => Err(NotUnicodeValue(name))
  }

  // ------------------------------------------------- scanners and language agree

  lemma {:induction false} AtTemplate(s: string, i: nat, t: Template)
    requires At(s, i, Print(t)) && t != []
    ensures At(s, i, PrintPiece(t[0])) && At(s, i + |PrintPiece(t[0])|, Print(t[1..]))
    ensures |Print(t)| == |PrintPiece(t[0])| + |Print(t[1..])|
    ensures |t| > 1 ==> At(s, i + |PrintPiece(t[0])|, PrintPiece(t[1]))
  {
    AtSplits(s, i, PrintPiece(t[0]), Print(t[1..]));
    if |t| > 1 {
      AtSplits(s, i + |PrintPiece(t[0])|, PrintPiece(t[1]), Print(t[1..][1..]));
    }
  }

  lemma AtBrackets(s: string, i: nat, open: string, text: string)
    requires At(s, i, open + text + "}")
    ensures At(s, i, open) && At(s, i + |open|, text) && s[i + |open| + |text|] == '}'
  {
    AtSplits(s, i, open + text, "}");
    AtSplits(s, i, open, text);
    AtChar(s, i + |open| + |text|, "}", 0);
  }

  /** Behind a nested template the text ends or a brace closes. */
  predicate EndsAt(s: string, i: nat) {
    i < |s| ==> s[i] == '}'
  }

  /** The text at `i` can stand behind a template without changing how the template reads. */
  predicate Continues(s: string, i: nat, t: Template, place: Place) {
    EndsAt(s, i) || (place == Top && (t != [] ==> t[|t| - 1] != Dollar))
  }

  predicate JoinsAt(p: Piece, place: Place, s: string, i: nat) {
    && (p.Dollar? && i < |s| ==> s[i] != '$' && s[i] != '{')
    && (p.Escape? && place != Top && i < |s| ==> s[i] != '{')
  }

  /** What holds of the first piece at `i`, and of the pieces behind it. */
  lemma Uncons(s: string, i: nat, t: Template, place: Place)
    requires At(s, i, Print(t)) && t != [] && Fits(t, place)
    requires Continues(s, i + |Print(t)|, t, place)
    ensures At(s, i, PrintPiece(t[0])) && PieceFits(t[0], place)
    ensures JoinsAt(t[0], place, s, i + |PrintPiece(t[0])|)
    ensures i + |PrintPiece(t[0])| + |Print(t[1..])| == i + |Print(t)|
    ensures At(s, i + |PrintPiece(t[0])|, Print(t[1..])) && Fits(t[1..], place)
    ensures Continues(s, i + |Print(t)|, t[1..], place)
  {
    AtTemplate(s, i, t);
    if |t| > 1 {
      AtChar(s, i + |PrintPiece(t[0])|, Print(t[1..]), 0);
    }
  }

  lemma {:induction false} FitsSuffix(t: Template, place: Place, i: nat)
    requires Fits(t, place) && i <= |t|
    ensures Fits(t[i..], place)
  {
    if i > 0 {
      FitsSuffix(t[1..], place, i - 1);
      assert t[1..][i - 1..] == t[i..];
    }
  }

  function PlaceOf(frame: Frame): Place {
    if frame == Literal then InQuote else Body
  }

  lemma SkipMoves(s: string, i: nat, stack: seq<Frame>, goal: Goal, n: nat)
    requires i < |s| && NextMove(s, i, TopIsLiteral(stack)) == Skip(n) && !Reached(s, i, stack, goal)
    ensures Find(s, i, stack, goal) == Find(s, i + n, stack, goal)
  {
  }

  lemma OpenMoves(s: string, i: nat, stack: seq<Frame>, goal: Goal, frame: Frame, n: nat)
    requires i < |s| && NextMove(s, i, TopIsLiteral(stack)) == Open(frame, n) && !Reached(s, i, stack, goal)
    ensures Find(s, i, stack, goal) == Find(s, i + n, stack + [frame], goal)
  {
  }

  lemma CloseMoves(s: string, i: nat, stack: seq<Frame>, frame: Frame, goal: Goal)
    requires i < |s| && s[i] == '}' && (stack == [] ==> goal == DefaultOperator)
    ensures Find(s, i, stack + [frame], goal) == Find(s, i + 1, stack, goal)
  {
    assert Pop(stack + [frame]) == stack;
  }

  /** A scan passes over a nested template as a whole, whatever it is looking for. */
  lemma {:induction false} FindThrough(s: string, i: nat, t: Template, place: Place, stack: seq<Frame>, goal: Goal)
    requires At(s, i, Print(t)) && Fits(t, place) && place != Top && Continues(s, i + |Print(t)|, t, place)
    requires stack != [] && (TopIsLiteral(stack) <==> place == InQuote)
    ensures Find(s, i, stack, goal) == Find(s, i + |Print(t)|, stack, goal)
    decreases t, 0
  {
    hide Scan;
    if t != [] {
      Uncons(s, i, t, place);
      FindThroughPiece(s, i, t[0], place, stack, goal);
      FindThrough(s, i + |PrintPiece(t[0])|, t[1..], place, stack, goal);
    }
  }

  lemma {:induction false} FindThroughPiece(s: string, i: nat, p: Piece, place: Place, stack: seq<Frame>, goal: Goal)
    requires At(s, i, PrintPiece(p)) && PieceFits(p, place) && place != Top
    requires JoinsAt(p, place, s, i + |PrintPiece(p)|)
    requires TopIsLiteral(stack) <==> place == InQuote
    requires stack == [] ==> goal == DefaultOperator && !AtDefault(s, i)
    ensures Find(s, i, stack, goal) == Find(s, i + |PrintPiece(p)|, stack, goal)
    decreases p, 1
  {
    hide Scan;
    FirstMove(s, i, p, place);
    match p
    case Text(_) => SkipMoves(s, i, stack, goal, 1);
    case Dollar => SkipMoves(s, i, stack, goal, 1);
    case Escape => SkipMoves(s, i, stack, goal, 2);
    case Quoted(inner) => FindThroughBraces(s, i, "$${", Literal, inner, stack, goal);
    case Group(inner) => FindThroughBraces(s, i, "{", Literal, inner, stack, goal);
    case Braces(body) => FindThroughBraces(s, i, "${", Expansion, body, stack, goal);
  }

  /** The token that starts a piece: brackets open a frame, everything else is passed as a whole. */
  lemma FirstMove(s: string, i: nat, p: Piece, place: Place)
    requires At(s, i, PrintPiece(p)) && PieceFits(p, place) && place != Top
    requires JoinsAt(p, place, s, i + |PrintPiece(p)|)
    ensures NextMove(s, i, place == InQuote) ==
      match p
      case Text(_) => Skip(1)
      case Dollar => Skip(1)
      case Escape => Skip(2)
      case Quoted(_) => Open(Literal, 3)
      case Group(_) => Open(Literal, 1)
      case Braces(_) => Open(Expansion, 2)
  {
    AtChar(s, i, PrintPiece(p), 0);
    if |PrintPiece(p)| > 1 {
      AtChar(s, i, PrintPiece(p), 1);
    }
    if p.Quoted? {
      AtChar(s, i, PrintPiece(p), 2);
    }
  }

  lemma {:induction false} FindThroughBraces(
    s: string, i: nat, open: string, frame: Frame, inner: Template, stack: seq<Frame>, goal: Goal)
    requires At(s, i, open + Print(inner) + "}") && Fits(inner, PlaceOf(frame))
    requires NextMove(s, i, TopIsLiteral(stack)) == Open(frame, |open|)
    requires stack == [] ==> goal == DefaultOperator && !AtDefault(s, i)
    ensures Find(s, i, stack, goal) == Find(s, i + |open| + |Print(inner)| + 1, stack, goal)
    decreases inner, 1
  {
    hide Scan;
    AtBrackets(s, i, open, Print(inner));
    OpenMoves(s, i, stack, goal, frame, |open|);
    FindThrough(s, i + |open|, inner, PlaceOf(frame), stack + [frame], goal);
    CloseMoves(s, i + |open| + |Print(inner)|, stack, frame, goal);
  }

  lemma MarkFound(s: string, i: nat)
    requires AtDefault(s, i)
    ensures i < |s| && Find(s, i, [], DefaultOperator) == Some(i)
  {
  }

  lemma NoMarkAtTheEnd(s: string, t: Template)
    requires t == []
    ensures |Print(t)| == 0 && DefaultMark(t) == None && Find(s, |s|, [], DefaultOperator) == None
  {
  }

  lemma MarkIsFirst(t: Template)
    requires t != [] && AtMark(t)
    ensures DefaultMark(t) == Some(0) && Print(t[..0]) == ""
  {
  }

  /** The `:-` splitter stops at the first default mark of the body's tree, and nowhere else. */
  lemma {:induction false} SplitterFindsMark(s: string, i: nat, t: Template)
    requires At(s, i, Print(t)) && i + |Print(t)| == |s| && Fits(t, Body)
    ensures Find(s, i, [], DefaultOperator) ==
      match DefaultMark(t)
      case None => None
      case Some(k) => Some(i + |Print(t[..k])|)
    decreases t
  {
    hide *;
    if t == [] {
      NoMarkAtTheEnd(s, t);
    } else {
      MarkIsSeen(s, i, t);
      if AtMark(t) {
        MarkFound(s, i);
        MarkIsFirst(t);
      } else {
        SplitterPasses(s, i, t);
        SplitterFindsMark(s, i + |PrintPiece(t[0])|, t[1..]);
        MarkMoves(t, i);
      }
    }
  }

  lemma {:induction false} SplitterPasses(s: string, i: nat, t: Template)
    requires At(s, i, Print(t)) && i + |Print(t)| == |s| && t != [] && Fits(t, Body) && !AtMark(t)
    ensures var j := i + |PrintPiece(t[0])|;
      && At(s, j, Print(t[1..])) && j + |Print(t[1..])| == |s| && Fits(t[1..], Body)
      && Find(s, i, [], DefaultOperator) == Find(s, j, [], DefaultOperator)
  {
    MarkIsSeen(s, i, t);
    Uncons(s, i, t, Body);
    FindThroughPiece(s, i, t[0], Body, [], DefaultOperator);
  }

  lemma MarkIsSeen(s: string, i: nat, t: Template)
    requires At(s, i, Print(t)) && i + |Print(t)| == |s| && t != [] && Fits(t, Body)
    ensures AtMark(t) <==> AtDefault(s, i)
  {
    AtTemplate(s, i, t);
    AtChar(s, i, PrintPiece(t[0]), 0);
    if |t| > 1 {
      AtChar(s, i + |PrintPiece(t[0])|, PrintPiece(t[1]), 0);
    }
  }

  lemma LaterMark(t: Template)
    requires t != [] && !AtMark(t)
    ensures DefaultMark(t).None? <==> DefaultMark(t[1..]).None?
    ensures DefaultMark(t).Some? ==> DefaultMark(t).value == DefaultMark(t[1..]).value + 1
    ensures DefaultMark(t).Some? ==>
      Print(t[..DefaultMark(t).value]) == PrintPiece(t[0]) + Print(t[1..][..DefaultMark(t[1..]).value])
  {
    if DefaultMark(t).Some? {
      PrintTakes(t, DefaultMark(t).value);
    }
  }

  lemma MarkMoves(t: Template, i: nat)
    requires t != [] && !AtMark(t)
    ensures (match DefaultMark(t) case None => None case Some(k) => Some(i + |Print(t[..k])|))
         == match DefaultMark(t[1..])
            case None => None
            case Some(k) => Some(i + |PrintPiece(t[0])| + |Print(t[1..][..k])|)
  {
    hide DefaultMark, Print, PrintPiece;
    LaterMark(t);
  }

  lemma PrintTakes(t: Template, k: nat)
    requires 0 < k <= |t|
    ensures Print(t[..k]) == PrintPiece(t[0]) + Print(t[1..][..k - 1])
  {
    assert t[..k][0] == t[0] && t[..k][1..] == t[1..][..k - 1];
  }

  lemma MarkPrints(t: Template)
    requires AtMark(t)
    ensures Print(t) == ":-" + Print(t[2..])
  {
    assert Print(t[1..]) == "-" + Print(t[1..][1..]);
    assert t[1..][1..] == t[2..];
    assert ":" + ("-" + Print(t[2..])) == ":-" + Print(t[2..]);
  }

  lemma {:induction false} PrintConcat(a: Template, b: Template)
    ensures Print(a + b) == Print(a) + Print(b)
  {
    if a == [] {
      assert a + b == b;
    } else {
      assert (a + b)[0] == a[0] && (a + b)[1..] == a[1..] + b;
      PrintConcat(a[1..], b);
    }
  }

  lemma {:induction false} MarkedAt(body: Template)
    requires DefaultMark(body).Some?
    ensures AtMark(body[DefaultMark(body).value..])
  {
    if !AtMark(body) {
      MarkedAt(body[1..]);
      assert body[1..][DefaultMark(body).value - 1..] == body[DefaultMark(body).value..];
    }
  }

  /** A body with a default is printed as the name, the operator and the default in turn. */
  lemma BodyPrints(body: Template)
    requires DefaultMark(body).Some?
    ensures Print(body) == Print(body[..DefaultMark(body).value]) + ":-" + Print(body[DefaultMark(body).value + 2..])
  {
    hide Print, DefaultMark;
    var i := DefaultMark(body).value;
    MarkedAt(body);
    MarkPrints(body[i..]);
    assert body[i..][2..] == body[i + 2..];
    PrintConcat(body[..i], body[i..]);
    assert body[..i] + body[i..] == body;
  }

  /** The splitter cuts a body into its name and its default, exactly where its tree does. */
  lemma SplitBody(body: Template)
    requires Fits(body, Body)
    ensures DefaultMark(body).None? <==> DefaultAt(Print(body)).None?
    ensures DefaultMark(body).Some? ==>
      && Print(body)[..DefaultAt(Print(body)).value] == Print(body[..DefaultMark(body).value])
      && Print(body)[DefaultAt(Print(body)).value + 2..] == Print(body[DefaultMark(body).value + 2..])
  {
    SplitterFindsMark(Print(body), 0, body);
    if DefaultMark(body).Some? {
      BodyPrints(body);
    }
  }

  /** The expander reads a well-formed template as a whole and continues behind it. */
  lemma {:induction false} ExpandThrough(s: string, i: nat, t: Template, place: Place, env: Environment, depth: nat)
    requires At(s, i, Print(t)) && Fits(t, place) && Continues(s, i + |Print(t)|, t, place)
    ensures ExpandFrom(s, i, env, depth) == Then(Meaning(t, env, depth), ExpandFrom(s, i + |Print(t)|, env, depth))
    decreases t, 0
  {
    hide ExpandFrom, PrintPiece, PieceMeaning;
    if t == [] {
      ThenNothing(ExpandFrom(s, i, env, depth));
    } else {
      var j, k := i + |PrintPiece(t[0])|, i + |Print(t)|;
      Uncons(s, i, t, place);
      ExpandThroughPiece(s, i, t[0], place, env, depth);
      ExpandThrough(s, j, t[1..], place, env, depth);
      ThenAssociates(PieceMeaning(t[0], env, depth), Meaning(t[1..], env, depth), ExpandFrom(s, k, env, depth));
    }
  }

  lemma {:induction false} ExpandThroughPiece(s: string, i: nat, p: Piece, place: Place, env: Environment, depth: nat)
    requires At(s, i, PrintPiece(p)) && PieceFits(p, place)
    requires JoinsAt(p, place, s, i + |PrintPiece(p)|)
    ensures ExpandFrom(s, i, env, depth)
         == Then(PieceMeaning(p, env, depth), ExpandFrom(s, i + |PrintPiece(p)|, env, depth))
    decreases p, 1
  {
    hide ExpandBraced, Scan;
    match p
    case Text(_) => AtChar(s, i, PrintPiece(p), 0);
    case Dollar => AtChar(s, i, PrintPiece(p), 0);
    case Escape => ExpandEscape(s, i, env, depth);
    case Quoted(inner) => ExpandQuoted(s, i, inner, env, depth);
    case Group(inner) => ExpandGroup(s, i, inner, env, depth);
    case Braces(body) => ExpandReference(s, i, body, env, depth);
  }

  lemma {:induction false} ExpandQuoted(s: string, i: nat, inner: Template, env: Environment, depth: nat)
    requires At(s, i, "$${" + Print(inner) + "}") && Fits(inner, InQuote)
    ensures ExpandFrom(s, i, env, depth)
         == Then(PieceMeaning(Quoted(inner), env, depth), ExpandFrom(s, i + |Print(inner)| + 4, env, depth))
    decreases inner, 2
  {
    var group := "{" + Print(inner) + "}";
    assert "$${" + Print(inner) + "}" == "$$" + group;
    AtSplits(s, i, "$$", group);
    ExpandEscape(s, i, env, depth);
    ExpandGroup(s, i + 2, inner, env, depth);
    QuotedMeaning(inner, env, depth);
    ThenAssociates(Ok("$"), PieceMeaning(Group(inner), env, depth), ExpandFrom(s, i + |Print(inner)| + 4, env, depth));
  }

  lemma ExpandEscape(s: string, i: nat, env: Environment, depth: nat)
    requires At(s, i, "$$")
    ensures ExpandFrom(s, i, env, depth) == Then(Ok("$"), ExpandFrom(s, i + 2, env, depth))
  {
    AtChar(s, i, "$$", 0);
    AtChar(s, i, "$$", 1);
  }

  lemma {:induction false} ExpandReference(s: string, i: nat, body: Template, env: Environment, depth: nat)
    requires At(s, i, "${" + Print(body) + "}") && Fits(body, Body)
    ensures ExpandFrom(s, i, env, depth)
         == Then(PieceMeaning(Braces(body), env, depth), ExpandFrom(s, i + |Print(body)| + 3, env, depth))
    decreases body, 2
  {
    hide Scan;
    var k := i + 2 + |Print(body)|;
    AtBrackets(s, i, "${", Print(body));
    AtChar(s, i, "${", 0);
    AtChar(s, i, "${", 1);
    ReferenceCloses(s, i + 2, body);
    ExpandBody(body, env, depth);
    assert s[i + 2..k] == Print(body);
  }

  lemma ReferenceCloses(s: string, i: nat, body: Template)
    requires At(s, i, Print(body)) && Fits(body, Body)
    requires i + |Print(body)| < |s| && s[i + |Print(body)|] == '}'
    ensures ClosingAt(s, i) == Some(i + |Print(body)|)
  {
    FindThrough(s, i, body, Body, [Expansion], ClosingBrace);
  }

  lemma {:induction false} ExpandGroup(s: string, i: nat, inner: Template, env: Environment, depth: nat)
    requires At(s, i, "{" + Print(inner) + "}") && Fits(inner, InQuote)
    ensures ExpandFrom(s, i, env, depth)
         == Then(PieceMeaning(Group(inner), env, depth), ExpandFrom(s, i + |Print(inner)| + 2, env, depth))
    decreases inner, 1
  {
    var meaning, last := Meaning(inner, env, depth), ExpandFrom(s, i + |Print(inner)| + 2, env, depth);
    AtBrackets(s, i, "{", Print(inner));
    AtChar(s, i, "{", 0);
    ExpandThrough(s, i + 1, inner, InQuote, env, depth);
    ThenAssociates(Ok("{"), Then(meaning, Ok("}")), last);
    ThenAssociates(meaning, Ok("}"), last);
  }

  lemma QuotedMeaning(inner: Template, env: Environment, depth: nat)
    ensures PieceMeaning(Quoted(inner), env, depth) == Then(Ok("$"), PieceMeaning(Group(inner), env, depth))
  {
    assert "$" + "{" == "${";
    assert Then(Ok("$"), Ok("{")) == Ok("${");
    ThenAssociates(Ok("$"), Ok("{"), Then(Meaning(inner, env, depth), Ok("}")));
  }

  lemma {:induction false} ExpandBody(body: Template, env: Environment, depth: nat)
    requires Fits(body, Body)
    ensures ExpandBraced(Print(body), env, depth + 1) == PieceMeaning(Braces(body), env, depth)
    decreases body, 1
  {
    SplitBody(body);
    BodyLooksUp(Print(body), env, depth + 1);
    if DefaultMark(body).Some? {
      FitsSuffix(body, Body, DefaultMark(body).value + 2);
      ExpandDenotes(body[DefaultMark(body).value + 2..], Body, env, depth + 1);
    }
  }

  /** How a `${...}` body is read, once the scan for `:-` has answered. */
  lemma BodyLooksUp(body: string, env: Environment, depth: nat)
    ensures DefaultAt(body).None? ==>
      ExpandBraced(body, env, depth) ==
        if IsValidEnvName(body) then Lookup(body, env, Ok(""), Ok("")) else Err(Unsupported(body))
    ensures DefaultAt(body).Some? ==>
      var name := body[..DefaultAt(body).value];
      var fallback := Expand(body[DefaultAt(body).value + 2..], env, depth);
      ExpandBraced(body, env, depth) ==
        if IsValidEnvName(name) then Lookup(name, env, fallback, fallback) else Err(InvalidName(name))
  {
  }

  /** Expanding a printed template gives the template's meaning, in every environment. */
  lemma {:induction false} ExpandDenotes(t: Template, place: Place, env: Environment, depth: nat)
    requires Fits(t, place)
    ensures Expand(Print(t), env, depth) == Denote(t, env, depth)
    decreases t, 1
  {
    ExpandThrough(Print(t), 0, t, place, env, depth);
    ThenNothing(Meaning(t, env, depth));
  }

  // ------------------------------------------------- every argument is in the language

  /** A scan depends only on the frames it is given: those below wait until it has closed them all. */
  lemma {:induction false} FindNests(s: string, i: nat, below: seq<Frame>, stack: seq<Frame>)
    requires i <= |s| && below != [] && stack != []
    ensures Find(s, i, below + stack, ClosingBrace) ==
      match Find(s, i, stack, ClosingBrace)
      case None => None
      case Some(j) => Find(s, j + 1, below, ClosingBrace)
    decreases |s| - i
  {
    if i < |s| {
      if Reached(s, i, stack, ClosingBrace) {
        assert Pop(below + stack) == below;
      } else {
        var (j, after) := Step(s, i, stack);
        StepNests(s, i, below, stack);
        FindNests(s, j, below, after);
      }
    }
  }

  lemma StepNests(s: string, i: nat, below: seq<Frame>, stack: seq<Frame>)
    requires i < |s| && stack != [] && !Reached(s, i, stack, ClosingBrace)
    ensures Step(s, i, stack).1 != []
    ensures Step(s, i, below + stack) == (Step(s, i, stack).0, below + Step(s, i, stack).1)
  {
    match NextMove(s, i, TopIsLiteral(stack))
    case Open(frame, n) => assert below + stack + [frame] == below + (stack + [frame]);
    case Close => assert Pop(below + stack) == below + Pop(stack);
    case Skip(n) =>
  }

  lemma {:induction false} ClosesWithBrace(s: string, i: nat, stack: seq<Frame>)
    requires i <= |s| && Find(s, i, stack, ClosingBrace).Some?
    ensures s[Find(s, i, stack, ClosingBrace).value] == '}'
    decreases |s| - i
  {
    if !Reached(s, i, stack, ClosingBrace) {
      var (j, after) := Step(s, i, stack);
      ClosesWithBrace(s, j, after);
    }
  }

  /** What stands before a matching brace is a well-formed template. */
  lemma {:induction false} ParseInside(s: string, i: nat, frame: Frame) returns (t: Template)
    requires i <= |s| && Find(s, i, [frame], ClosingBrace).Some?
    ensures Fits(t, PlaceOf(frame)) && Print(t) == s[i..Find(s, i, [frame], ClosingBrace).value]
    decreases |s| - i, 1
  {
    if s[i] == '}' {
      t := [];
    } else {
      match NextMove(s, i, frame == Literal)
      case Skip(n) => t := ParseToken(s, i, n, frame);
      case Open(g, n) => t := ParseBrackets(s, i, g, n, frame);
    }
  }

  lemma {:induction false} ParseToken(s: string, i: nat, n: nat, frame: Frame) returns (t: Template)
    requires i < |s| && Find(s, i, [frame], ClosingBrace).Some?
    requires NextMove(s, i, frame == Literal) == Skip(n)
    ensures Fits(t, PlaceOf(frame)) && Print(t) == s[i..Find(s, i, [frame], ClosingBrace).value]
    decreases |s| - i, 0
  {
    var piece := TokenPrints(s, i, n, frame);
    var rest := ParseInside(s, i + n, frame);
    t := ParsedPiece(s, i, i + n, piece, rest, frame);
  }

  lemma TokenPrints(s: string, i: nat, n: nat, frame: Frame) returns (piece: Piece)
    requires i < |s| && NextMove(s, i, frame == Literal) == Skip(n) && i + n <= |s|
    ensures PrintPiece(piece) == s[i..i + n] && PieceFits(piece, PlaceOf(frame))
    ensures JoinsAt(piece, PlaceOf(frame), s, i + n)
  {
    piece := if n == 2 then Escape else if s[i] == '$' then Dollar else Text(s[i]);
    assert s[i..i + n] == if n == 2 then [s[i], s[i + 1]] else [s[i]];
  }

  lemma {:induction false} ParseBrackets(s: string, i: nat, g: Frame, n: nat, frame: Frame) returns (t: Template)
    requires i < |s| && Find(s, i, [frame], ClosingBrace).Some?
    requires NextMove(s, i, frame == Literal) == Open(g, n)
    ensures Fits(t, PlaceOf(frame)) && Print(t) == s[i..Find(s, i, [frame], ClosingBrace).value]
    decreases |s| - i, 0
  {
    hide Scan;
    FindOpened(s, i, frame, g, n);
    var j := Find(s, i + n, [g], ClosingBrace).value;
    var inner := ParseInside(s, i + n, g);
    var piece := BracketsPrint(s, i, g, n, frame, inner);
    var rest := ParseInside(s, j + 1, frame);
    t := ParsedPiece(s, i, j + 1, piece, rest, frame);
  }

  /** A brace opened inside a matched pair is matched inside it. */
  lemma FindOpened(s: string, i: nat, frame: Frame, g: Frame, n: nat)
    requires i < |s| && NextMove(s, i, frame == Literal) == Open(g, n)
    requires Find(s, i, [frame], ClosingBrace).Some?
    ensures Find(s, i + n, [g], ClosingBrace).Some?
    ensures Find(s, i, [frame], ClosingBrace)
         == Find(s, Find(s, i + n, [g], ClosingBrace).value + 1, [frame], ClosingBrace)
  {
    assert [frame] + [g] == [frame, g];
    FindNests(s, i + n, [frame], [g]);
  }

  lemma OpeningPrints(s: string, i: nat, g: Frame, n: nat, literal: bool)
    requires i < |s| && NextMove(s, i, literal) == Open(g, n)
    ensures i + n <= |s| && s[i..i + n] == if n == 3 then "$${" else if n == 2 then "${" else "{"
    ensures if n == 2 then g == Expansion else g == Literal && (n == 3 || (n == 1 && literal))
  {
  }

  lemma BracketsPrint(s: string, i: nat, g: Frame, n: nat, frame: Frame, inner: Template)
    returns (piece: Piece)
    requires i < |s| && NextMove(s, i, frame == Literal) == Open(g, n)
    requires Find(s, i + n, [g], ClosingBrace).Some? && Fits(inner, PlaceOf(g))
    requires Print(inner) == s[i + n..Find(s, i + n, [g], ClosingBrace).value]
    ensures PieceFits(piece, PlaceOf(frame)) && !piece.Dollar? && !piece.Escape?
    ensures PrintPiece(piece) == s[i..Find(s, i + n, [g], ClosingBrace).value + 1]
  {
    piece := if n == 3 then Quoted(inner) else if n == 2 then Braces(inner) else Group(inner);
    OpeningPrints(s, i, g, n, frame == Literal);
    ClosesWithBrace(s, i + n, [g]);
    var j := Find(s, i + n, [g], ClosingBrace).value;
    SliceSplits(s, i, i + n, j);
  }

  lemma SliceSplits(s: string, i: nat, m: nat, j: nat)
    requires i <= m <= j < |s|
    ensures s[i..j + 1] == s[i..m] + s[m..j] + [s[j]]
  {
  }

  lemma ParsedPiece(s: string, i: nat, j: nat, piece: Piece, rest: Template, frame: Frame)
    returns (t: Template)
    requires i < j <= |s| && PrintPiece(piece) == s[i..j] && PieceFits(piece, PlaceOf(frame))
    requires JoinsAt(piece, PlaceOf(frame), s, j)
    requires Find(s, i, [frame], ClosingBrace) == Find(s, j, [frame], ClosingBrace)
    requires Find(s, j, [frame], ClosingBrace).Some?
    requires Fits(rest, PlaceOf(frame)) && Print(rest) == s[j..Find(s, j, [frame], ClosingBrace).value]
    ensures Fits(t, PlaceOf(frame)) && Print(t) == s[i..Find(s, i, [frame], ClosingBrace).value]
  {
    t := [piece] + rest;
    assert t[1..] == rest;
    var k := Find(s, j, [frame], ClosingBrace).value;
    assert s[i..j] + s[j..k] == s[i..k];
  }

  /** `s` reads as `t`, up to its end or up to a `${` at `open` that nothing closes. */
  predicate Reads(s: string, i: nat, t: Template, open: Option<nat>)
    requires i <= |s|
  {
    && Fits(t, Top)
    && match open
       case None => Print(t) == s[i..]
       case Some(p) =>
         && i <= p <= |s| - 2 && Print(t) == s[i..p] && (t != [] ==> t[|t| - 1] != Dollar)
         && s[p] == '$' && s[p + 1] == '{' && ClosingAt(s, p + 2).None?
  }

  lemma {:induction false} ParseArgument(s: string, i: nat) returns (t: Template, open: Option<nat>)
    requires i <= |s|
    ensures Reads(s, i, t, open)
    decreases |s| - i
  {
    if i == |s| {
      t, open := [], None;
    } else if s[i] == '$' && i + 1 < |s| && s[i + 1] == '{' && ClosingAt(s, i + 2).None? {
      t, open := [], Some(i);
    } else {
      var piece := ParsePiece(s, i);
      t, open := ParseArgument(s, i + |PrintPiece(piece)|);
      t := ReadsOn(s, i, i + |PrintPiece(piece)|, piece, t, open);
    }
  }

  lemma ParsePiece(s: string, i: nat) returns (piece: Piece)
    requires i < |s|
    requires s[i] == '$' && i + 1 < |s| && s[i + 1] == '{' ==> ClosingAt(s, i + 2).Some?
    ensures At(s, i, PrintPiece(piece)) && PieceFits(piece, Top)
    ensures JoinsAt(piece, Top, s, i + |PrintPiece(piece)|)
  {
    hide Scan;
    if s[i] == '$' && i + 1 < |s| && s[i + 1] == '{' {
      var k := ClosingAt(s, i + 2).value;
      var body := ParseInside(s, i + 2, Expansion);
      ClosesWithBrace(s, i + 2, [Expansion]);
      SliceSplits(s, i, i + 2, k);
      assert s[i..i + 2] == "${";
      piece := Braces(body);
    } else {
      piece := if s[i] != '$' then Text(s[i]) else if i + 1 < |s| && s[i + 1] == '$' then Escape else Dollar;
    }
  }

  lemma SlicesJoin(s: string, i: nat, m: nat, j: nat)
    requires i <= m <= j <= |s|
    ensures s[i..m] + s[m..j] == s[i..j]
  {
  }

  lemma ReadsOn(s: string, i: nat, j: nat, piece: Piece, rest: Template, open: Option<nat>)
    returns (t: Template)
    requires i < j <= |s| && PrintPiece(piece) == s[i..j] && PieceFits(piece, Top)
    requires Reads(s, j, rest, open) && JoinsAt(piece, Top, s, j)
    ensures Reads(s, i, t, open)
  {
    t := [piece] + rest;
    assert t[1..] == rest;
    var k := if open.Some? then open.value else |s|;
    SlicesJoin(s, i, j, k);
    assert s[i..] == s[i..|s|];
  }

  /** Every argument is a template, or a template and an unclosed `${`. */
  lemma EveryArgumentReads(s: string)
    ensures exists t, open :: Reads(s, 0, t, open)
  {
    var t, open := ParseArgument(s, 0);
  }

  /** What expansion answers for an argument follows from how it reads, and from nothing else. */
  lemma ExpandReads(s: string, t: Template, open: Option<nat>, env: Environment, depth: nat)
    requires Reads(s, 0, t, open) && depth <= MAX_ENV_EXPANSION_DEPTH
    ensures Expand(s, env, depth) ==
      Then(Meaning(t, env, depth), if open.Some? then Err(MissingBrace) else Ok(""))
  {
    var end := if open.Some? then open.value else |s|;
    assert s[0..end] == Print(t);
    ExpandThrough(s, 0, t, Top, env, depth);
    ExpandEnds(s, end, open, env, depth);
  }

  lemma ExpandEnds(s: string, end: nat, open: Option<nat>, env: Environment, depth: nat)
    requires match open
      case None => end == |s|
      case Some(p) =>
        p == end && p + 2 <= |s| && s[p] == '$' && s[p + 1] == '{' && ClosingAt(s, p + 2).None?
    ensures end <= |s| && ExpandFrom(s, end, env, depth) == if open.Some? then Err(MissingBrace) else Ok("")
  {
  }

  lemma {:induction false} MeaningIsClosed(t: Template, env: Environment, depth: nat)
    ensures Meaning(t, env, depth) != Err(MissingBrace)
    decreases t, 0
  {
    if t != [] {
      PieceMeaningIsClosed(t[0], env, depth);
      MeaningIsClosed(t[1..], env, depth);
    }
  }

  lemma {:induction false} PieceMeaningIsClosed(p: Piece, env: Environment, depth: nat)
    ensures PieceMeaning(p, env, depth) != Err(MissingBrace)
    decreases p, 1
  {
    match p
    case Text(_) =>
    case Dollar =>
    case Escape =>
    case Quoted(inner) => MeaningIsClosed(inner, env, depth);
    case Group(inner) => MeaningIsClosed(inner, env, depth);
    case Braces(body) =>
      if DefaultMark(body).Some? {
        MeaningIsClosed(body[DefaultMark(body).value + 2..], env, depth + 1);
      }
  }

  /** Once the matcher has accepted a `${`, no brace inside it is ever found missing, at any depth. */
  lemma AcceptedBodyIsClosed(s: string, i: nat, env: Environment, depth: nat)
    requires i <= |s| && ClosingAt(s, i).Some?
    ensures ExpandBraced(s[i..ClosingAt(s, i).value], env, depth + 1) != Err(MissingBrace)
  {
    var body := ParseInside(s, i, Expansion);
    ExpandBody(body, env, depth);
    PieceMeaningIsClosed(Braces(body), env, depth);
  }

  /** A brace is reported missing exactly for an unclosed `${` that expansion reaches. */
  lemma MissingBraceExactly(s: string, env: Environment, depth: nat)
    requires depth <= MAX_ENV_EXPANSION_DEPTH
    ensures Expand(s, env, depth) == Err(MissingBrace)
      <==> exists t, p: nat :: Reads(s, 0, t, Some(p)) && Meaning(t, env, depth).Ok?
  {
    var t0, open := ParseArgument(s, 0);
    ExpandReads(s, t0, open, env, depth);
    MeaningIsClosed(t0, env, depth);
    forall t, p: nat | Reads(s, 0, t, Some(p)) && Meaning(t, env, depth).Ok?
      ensures Expand(s, env, depth) == Err(MissingBrace)
    {
      ExpandReads(s, t, Some(p), env, depth);
    }
    if Expand(s, env, depth) == Err(MissingBrace) {
      assert Reads(s, 0, t0, Some(open.value));
    }
  }

  // ------------------------------------------------- nesting

  /** Every level of nesting costs six characters: `${`, a name, `:-` and `}`. */
  lemma {:induction false} NestingCosts(s: string, env: Environment, depth: nat)
    requires depth <= MAX_ENV_EXPANSION_DEPTH + 1 && Expand(s, env, depth) == Err(NestingTooDeep)
    ensures |s| >= 6 * (MAX_ENV_EXPANSION_DEPTH + 1 - depth)
    decreases |s|, |s| + 1
  {
    if depth <= MAX_ENV_EXPANSION_DEPTH {
      NestingCostsFrom(s, 0, env, depth);
    }
  }

  lemma {:induction false} NestingCostsFrom(s: string, i: nat, env: Environment, depth: nat)
    requires i <= |s| && depth <= MAX_ENV_EXPANSION_DEPTH && ExpandFrom(s, i, env, depth) == Err(NestingTooDeep)
    ensures |s| - i >= 6 * (MAX_ENV_EXPANSION_DEPTH + 1 - depth)
    decreases |s|, |s| - i
  {
    if i + 1 < |s| && s[i] == '$' && s[i + 1] == '$' {
      NestingCostsFrom(s, i + 2, env, depth);
    } else if i + 1 < |s| && s[i] == '$' && s[i + 1] == '{' {
      var k := ClosingAt(s, i + 2).value;
      if ExpandBraced(s[i + 2..k], env, depth + 1).Err? {
        NestingCostsBraced(s[i + 2..k], env, depth + 1);
      } else {
        NestingCostsFrom(s, k + 1, env, depth);
      }
    } else {
      NestingCostsFrom(s, i + 1, env, depth);
    }
  }

  lemma {:induction false} NestingCostsBraced(body: string, env: Environment, depth: nat)
    requires 0 < depth <= MAX_ENV_EXPANSION_DEPTH + 1 && ExpandBraced(body, env, depth) == Err(NestingTooDeep)
    ensures |body| >= 3 + 6 * (MAX_ENV_EXPANSION_DEPTH + 1 - depth)
    decreases |body|, |body| + 3
  {
    NestingCosts(body[DefaultAt(body).value + 2..], env, depth);
  }

  /** An argument shorter than 198 characters can never exceed the nesting limit. */
  lemma ShortArgumentsNest(s: string, env: Environment)
    requires |s| < 198
    ensures Expand(s, env, 0) != Err(NestingTooDeep)
  {
    if Expand(s, env, 0) == Err(NestingTooDeep) {
      NestingCosts(s, env, 0);
    }
  }

  /** The body of `${A:-...}` around `inner`. */
  function Defaulting(inner: Template): Template {
    [Text('A'), Text(':'), Text('-')] + inner
  }

  lemma DefaultingShape(inner: Template)
    requires Fits(inner, Body)
    ensures Fits(Defaulting(inner), Body) && |Print(Defaulting(inner))| == 3 + |Print(inner)|
    ensures DefaultMark(Defaulting(inner)) == Some(1)
    ensures Defaulting(inner)[3..] == inner && Print(Defaulting(inner)[..1]) == "A"
  {
    var body := Defaulting(inner);
    assert body[1..] == [Text(':'), Text('-')] + inner;
    assert body[1..][1..] == [Text('-')] + inner;
    assert body[1..][1..][1..] == inner;
    assert Fits(body[1..][1..], Body);
    assert Fits(body[1..], Body);
    assert AtMark(body[1..]) && DefaultMark(body[1..]) == Some(0);
    assert |Print(body[1..][1..])| == 1 + |Print(inner)| && |Print(body[1..])| == 2 + |Print(inner)|;
    assert body[..1] == [Text('A')] && body[..1][1..] == [];
  }

  /** `${A:-${A:-...}}`, nested `n` times. */
  function Nested(n: nat): Template {
    if n == 0 then [] else [Braces(Defaulting(Nested(n - 1)))]
  }

  lemma {:induction false} NestedFits(n: nat)
    ensures Fits(Nested(n), Body) && Fits(Nested(n), Top) && |Print(Nested(n))| == 6 * n
  {
    if n > 0 {
      NestedFits(n - 1);
      DefaultingShape(Nested(n - 1));
      assert Nested(n)[1..] == [];
    }
  }

  lemma {:induction false} NestedMeaning(n: nat, depth: nat)
    requires n + depth == MAX_ENV_EXPANSION_DEPTH + 1
    ensures Denote(Nested(n), map[], depth) == Err(NestingTooDeep)
  {
    if n > 0 {
      NestedMeaning(n - 1, depth + 1);
      NestedFits(n - 1);
      DefaultingShape(Nested(n - 1));
      assert PieceMeaning(Nested(n)[0], map[], depth) == Err(NestingTooDeep);
    }
  }

  /** The bound is exact: this argument has 198 characters. */
  lemma NestingBoundIsExact()
    ensures |Print(Nested(33))| == 198 && Expand(Print(Nested(33)), map[], 0) == Err(NestingTooDeep)
  {
    NestedFits(33);
    NestedMeaning(33, 0);
    ExpandDenotes(Nested(33), Top, map[], 0);
  }

  // ------------------------------------------------- names by the codes of their characters

  /** Letters, the underscore and, but for the first one, digits. */
  predicate IsNameCode(code: int, first: bool) {
    65 <= code <= 90 || code == 95 || 97 <= code <= 122 || (!first && 48 <= code <= 57)
  }

  predicate IsNameByCode(name: string) {
    name != "" && forall i :: 0 <= i < |name| ==> IsNameCode(name[i] as int, i == 0)
  }

  function Plainly(text: string): Template {
    if text == "" then [] else [Text(text[0])] + Plainly(text[1..])
  }

  lemma {:induction false} PlainlyPrints(text: string)
    requires '$' !in text && '}' !in text && ':' !in text
    ensures Print(Plainly(text)) == text && Fits(Plainly(text), Body) && DefaultMark(Plainly(text)).None?
  {
    if text != "" {
      assert text[0] in text && forall c <- text[1..] :: c in text;
      PlainlyPrints(text[1..]);
      assert Plainly(text)[1..] == Plainly(text[1..]);
    }
  }

  /** A reference to such a name is looked up; any other without a character that has a meaning is
      reported. */
  lemma ReferencesAreLookedUp(name: string, env: Environment)
    requires '$' !in name && '}' !in name && ':' !in name
    ensures Expand("${" + name + "}", env, 0) ==
      if !IsNameByCode(name) then Err(Unsupported(name))
      else if name !in env then Ok("")
      else match env[name]
        case Unicode(text) => Ok(text)
        case NotUnicode => Err(NotUnicodeValue(name))
  {
    var t := [Braces(Plainly(name))];
    PlainlyPrints(name);
    assert Print(t[1..]) == "" && PrintPiece(t[0]) == "${" + name + "}";
    assert Print(t) == "${" + name + "}" + "" == "${" + name + "}";
    ExpandDenotes(t, Top, env, 0);
    ThenNothing(PieceMeaning(t[0], env, 0));
    assert Meaning(t[1..], env, 0) == Ok("");
  }
}
