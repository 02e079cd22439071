/** The language of `env -S` arguments: a list of tokens, the text it is written as, and the words
    it stands for in an environment; and the proofs that the splitter of module EnvSplit, which goes
    character by character, finds exactly those words, and splits nothing that is not written so. */
module EnvLanguage {
  import opened Results
  import opened Text
  import opened Expansion
  import opened EnvSplit

  // ---------------------------------------------------------------- the language

  /** What stands between quotation marks: a character, an escape sequence, a backslash that escapes
      nothing and the character behind it, or a reference. */
  datatype Piece = Char(c: char) | Code(code: char) | Backslash(c: char) | Reference(name: string)

  /** A part of a word, or what separates words: white space or the escape for it. */
  datatype Token =
    | Bare(c: char)
    | BareCode(code: char)
    | Variable(name: string)
    | Quoted(mark: char, pieces: seq<Piece>)
    | White(c: char)
    | Underscore

  /** What may follow the last token: nothing, a comment, or `\c` and whatever comes after it. */
  datatype Ending = Nothing | Comment(text: string) | Cut(text: string)

  /** Single quotes keep everything but a backslash in front of a backslash or a single quote. */
  predicate PieceFits(mark: char, p: Piece) {
    match p
    case Char(c) => c != '\\' && c != mark && (mark == '"' ==> c != '$')
    case Code(code) => if mark == '"' then code == '_' || Unescaped(code).Some? else code == '\\' || code == '\''
    case Backslash(c) => mark == '\'' && c != '\\' && c != '\''
    case Reference(name) => mark == '"' && IsValidEnvName(name)
  }

  predicate TokenFits(t: Token, inWord: bool) {
    match t
    case Bare(c) => !IsAsciiWhitespace(c) && c !in {'\\', '\'', '"', '$'} && (c == '#' ==> inWord)
    case BareCode(code) => Unescaped(code).Some?
    case Variable(name) => IsValidEnvName(name)
    case Quoted(mark, pieces) => (mark == '"' || mark == '\'') && forall p <- pieces :: PieceFits(mark, p)
    case White(c) => IsAsciiWhitespace(c)
    case Underscore => true
  }

  function PrintPiece(p: Piece): string {
    match p
    case Char(c) => [c]
    case Code(code) => ['\\', code]
    case Backslash(c) => ['\\', c]
    case Reference(name) => "${" + name + "}"
  }

  function Concat(parts: seq<string>): string {
    if parts == [] then "" else parts[0] + Concat(parts[1..])
  }

  function PrintedPieces(pieces: seq<Piece>): seq<string> {
    seq(|pieces|, k requires 0 <= k < |pieces| => PrintPiece(pieces[k]))
  }

  function PrintQuoted(mark: char, pieces: seq<Piece>): string {
    [mark] + Concat(PrintedPieces(pieces)) + [mark]
  }

  function PrintToken(t: Token): string {
    match t
    case Bare(c) => [c]
    case BareCode(code) => ['\\', code]
    case Variable(name) => "${" + name + "}"
    case Quoted(mark, pieces) => PrintQuoted(mark, pieces)
    case White(c) => [c]
    case Underscore => "\\_"
  }

  function PrintedTokens(tokens: seq<Token>): seq<string> {
    seq(|tokens|, k requires 0 <= k < |tokens| => PrintToken(tokens[k]))
  }

  function PrintEnding(ending: Ending): string {
    match ending
    case Nothing => ""
    case Comment(text) => "#" + text
    case Cut(text) => "\\c" + text
  }

  function Line(tokens: seq<Token>, ending: Ending): string {
    Concat(PrintedTokens(tokens)) + PrintEnding(ending)
  }

  // ---------------------------------------------------------------- its meaning

  /** What a reference stands for; an unset variable stands for nothing at all. */
  datatype Value = Text(text: string) | Absent | Failure

  function Lookup(env: Environment, name: string): Value {
    if name !in env then Absent else if env[name].Unicode? then Text(env[name].text) else Failure
  }

  function PieceText(env: Environment, p: Piece): Value {
    match p
    case Char(c) => Text([c])
    case Code(code) => Text(if code == '_' then " " else [Unescaped(code).UnwrapOr(code)])
    case Backslash(c) => Text(['\\', c])
    case Reference(name) => Lookup(env, name)
  }

  /** Between quotation marks an unset variable is empty. */
  function PiecesText(env: Environment, pieces: seq<Piece>): Value {
    if pieces == [] then Text("")
    else
      match (PieceText(env, pieces[0]), PiecesText(env, pieces[1..]))
      case (Text(a), Text(b)) => Text(a + b)
      case (Absent, Text(b)) => Text(b)
      case _ => Failure
  }

  function TokenText(env: Environment, t: Token): Value {
    match t
    case Bare(c) => Text([c])
    case BareCode(code) => Text([Unescaped(code).UnwrapOr(code)])
    case Variable(name) => Lookup(env, name)
    case Quoted(_, pieces) => PiecesText(env, pieces)
    case White(_) => Absent
    case Underscore => Absent
  }

  /** The words finished so far and the one that is open, if one is. */
  datatype Words = Words(done: seq<string>, current: Option<string>) {
    function Add(text: string): Words {
      Words(done, Some(current.UnwrapOr("") + text))
    }

    function Finish(): Words {
      Words(All(), None)
    }

    function All(): seq<string> {
      if current.Some? then done + [current.value] else done
    }
  }

  const NO_WORDS: Words := Words([], None)

  /** What one token does to the words. */
  function After(env: Environment, t: Token, words: Words): Option<Words> {
    if t.White? || t.Underscore? then Some(words.Finish())
    else
      match TokenText(env, t)
      case Text(text) => Some(words.Add(text))
      case Absent => Some(words)
      case Failure => None
  }

  function Denote(env: Environment, tokens: seq<Token>, words: Words): Option<seq<string>>
    decreases |tokens|
  {
    if tokens == [] then Some(words.All())
    else
      match After(env, tokens[0], words)
      case Some(next) => Denote(env, tokens[1..], next)
      case None => None
  }

  /** `#` is part of a word only where one is open, and begins a comment only where none is. */
  predicate Fits(env: Environment, tokens: seq<Token>, words: Words, ending: Ending)
    decreases |tokens|
  {
    if tokens == [] then ending.Comment? ==> words.current.None?
    else
      && TokenFits(tokens[0], words.current.Some?)
      && match After(env, tokens[0], words)
         case Some(next) => Fits(env, tokens[1..], next, ending)
         case None => true
  }

  // ---------------------------------------------------------------- turns of the splitter

  function StateOf(words: Words): Splitter {
    Splitter(words.done, words.current.UnwrapOr(""), words.current.Some?, None, false)
  }

  /** From `s` at `i` the splitter goes on with `next` at `j`, or fails. */
  predicate Leads(env: Environment, raw: string, i: nat, s: Splitter, j: nat, next: Option<Splitter>) {
    && i <= |raw| && j <= |raw|
    && Rest(env, raw, i, s) == if next.Some? then Rest(env, raw, j, next.value) else None
  }

  lemma LeadsTwice(env: Environment, raw: string, i: nat, s: Splitter, j: nat, middle: Splitter, k: nat,
      next: Option<Splitter>)
    requires Leads(env, raw, i, s, j, Some(middle)) && Leads(env, raw, j, middle, k, next)
    ensures Leads(env, raw, i, s, k, next)
  {
  }

  lemma ReferenceTurn(env: Environment, raw: string, i: nat, s: Splitter, name: string)
    requires At(raw, i, "${" + name + "}") && IsValidEnvName(name) && !s.escaped && !s.Quoting('\'')
    ensures var end := i + |name| + 3;
      TurnAt(env, raw, i, s) ==
        match Lookup(env, name)
        case Text(text) => Go(end, s.Push(text))
        case Absent => Go(end, s)
        case Failure => Invalid
  {
    var part := "${" + name + "}";
    var brace := i + |name| + 2;
    assert forall k :: 0 <= k < |part| ==> raw[i + k] == part[k];
    assert raw[i] == part[0] && raw[i + 1] == part[1] && raw[brace] == part[|name| + 2];
    assert raw[i..i + |part|][2..|name| + 2] == name;
    assert raw[i + 2..brace] == name;
    forall k | i + 2 <= k < brace
      ensures raw[k] != '}'
    {
      assert raw[k] == name[k - i - 2];
    }
    FindsFirst(raw, i + 2, '}', brace);
  }

  /** An escape sequence takes two turns. */
  lemma CodeTurns(env: Environment, raw: string, i: nat, s: Splitter, code: char)
    requires At(raw, i, ['\\', code]) && !s.escaped && (s.Quoting('\'') ==> code == '\\' || code == '\'')
    ensures i + 1 < |raw| && raw[i + 1] == code
    ensures TurnAt(env, raw, i, s) == Go(i + 1, s.(escaped := true))
    ensures TurnAt(env, raw, i + 1, s.(escaped := true)) == AfterBackslash(s.(escaped := true), code, i + 2)
  {
    assert raw[i] == raw[i..i + 2][0] && raw[i + 1] == raw[i..i + 2][1];
  }

  function Pushed(s: Splitter, v: Value): Option<Splitter> {
    match v
    case Text(text) => Some(s.(current := s.current + text))
    case Absent => Some(s)
    case Failure => None
  }

  /** Between the quotation marks. */
  predicate IsInside(s: Splitter, mark: char) {
    (mark == '"' || mark == '\'') && s.Quoting(mark) && !s.escaped && s.inField
  }

  lemma CodeRuns(env: Environment, raw: string, i: nat, s: Splitter, mark: char, code: char)
    requires IsInside(s, mark) && PieceFits(mark, Code(code)) && At(raw, i, ['\\', code])
    ensures Leads(env, raw, i, s, i + 2, Pushed(s, PieceText(env, Code(code))))
  {
    CodeTurns(env, raw, i, s, code);
    var text := if code == '_' then " " else [Unescaped(code).value];
    TurnRuns(env, raw, i, s, i + 1, s.(escaped := true));
    TurnRuns(env, raw, i + 1, s.(escaped := true), i + 2, s.Push(text));
  }

  lemma BackslashRuns(env: Environment, raw: string, i: nat, s: Splitter, c: char)
    requires IsInside(s, '\'') && c != '\\' && c != '\'' && At(raw, i, ['\\', c])
    ensures Leads(env, raw, i, s, i + 2, Pushed(s, Text(['\\', c])))
  {
    assert raw[i] == raw[i..i + 2][0] && raw[i + 1] == raw[i..i + 2][1];
    TurnRuns(env, raw, i, s, i + 1, s.Push(['\\']));
    TurnRuns(env, raw, i + 1, s.Push(['\\']), i + 2, s.Push(['\\']).Push([c]));
    assert s.current + ['\\'] + [c] == s.current + ['\\', c];
  }

  lemma PieceRuns(env: Environment, raw: string, i: nat, s: Splitter, mark: char, p: Piece)
    requires IsInside(s, mark) && PieceFits(mark, p) && At(raw, i, PrintPiece(p))
    ensures Leads(env, raw, i, s, i + |PrintPiece(p)|, Pushed(s, PieceText(env, p)))
  {
    match p
    case Char(c) =>
      assert raw[i] == raw[i..i + 1][0];
      TurnRuns(env, raw, i, s, i + 1, s.Push([c]));
    case Code(code) =>
      CodeRuns(env, raw, i, s, mark, code);
    case Backslash(c) =>
      BackslashRuns(env, raw, i, s, c);
    case Reference(name) =>
      ReferenceTurn(env, raw, i, s, name);
  }

  lemma PiecesAreThere(env: Environment, pieces: seq<Piece>)
    ensures !PiecesText(env, pieces).Absent?
  {
  }

  lemma PushedTwice(env: Environment, s: Splitter, pieces: seq<Piece>)
    requires pieces != []
    ensures Pushed(s, PiecesText(env, pieces)) ==
      match Pushed(s, PieceText(env, pieces[0]))
      case None => None
      case Some(middle) => Pushed(middle, PiecesText(env, pieces[1..]))
  {
    hide PieceText;
    var v, w := PieceText(env, pieces[0]), PiecesText(env, pieces[1..]);
    PiecesAreThere(env, pieces[1..]);
    if v.Text? && w.Text? {
      assert s.current + v.text + w.text == s.current + (v.text + w.text);
    }
  }

  lemma FirstPart(raw: string, i: nat, parts: seq<string>)
    requires parts != [] && At(raw, i, Concat(parts))
    ensures At(raw, i, parts[0]) && At(raw, i + |parts[0]|, Concat(parts[1..]))
    ensures |Concat(parts)| == |parts[0]| + |Concat(parts[1..])|
  {
    AtSplits(raw, i, parts[0], Concat(parts[1..]));
  }

  predicate PiecesWritten(pieces: seq<Piece>, parts: seq<string>) {
    |parts| == |pieces| && forall k :: 0 <= k < |parts| ==> parts[k] == PrintPiece(pieces[k])
  }

  /** The splitter behind one piece, and what the rest still adds. */
  lemma PieceStep(env: Environment, raw: string, i: nat, s: Splitter, mark: char, pieces: seq<Piece>, part: string)
    returns (middle: Option<Splitter>)
    requires pieces != [] && IsInside(s, mark) && PieceFits(mark, pieces[0])
    requires part == PrintPiece(pieces[0]) && At(raw, i, part)
    ensures i + |part| <= |raw|
    ensures middle.None? ==> Rest(env, raw, i, s) == None && Pushed(s, PiecesText(env, pieces)) == None
    ensures middle.Some? ==>
      && IsInside(middle.value, mark)
      && Rest(env, raw, i, s) == Rest(env, raw, i + |part|, middle.value)
      && Pushed(s, PiecesText(env, pieces)) == Pushed(middle.value, PiecesText(env, pieces[1..]))
  {
    PieceRuns(env, raw, i, s, mark, pieces[0]);
    PushedTwice(env, s, pieces);
    middle := Pushed(s, PieceText(env, pieces[0]));
  }

  lemma {:induction false} PiecesRun(env: Environment, raw: string, i: nat, s: Splitter, mark: char, pieces: seq<Piece>,
      parts: seq<string>)
    requires IsInside(s, mark) && forall p <- pieces :: PieceFits(mark, p)
    requires PiecesWritten(pieces, parts) && At(raw, i, Concat(parts))
    ensures Leads(env, raw, i, s, i + |Concat(parts)|, Pushed(s, PiecesText(env, pieces)))
    decreases |pieces|
  {
    hide SplitFrom;
    if pieces == [] {
      assert s.current + "" == s.current;
    } else {
      FirstPart(raw, i, parts);
      var middle := PieceStep(env, raw, i, s, mark, pieces, parts[0]);
      if middle.Some? {
        PiecesRun(env, raw, i + |parts[0]|, middle.value, mark, pieces[1..], parts[1..]);
      }
    }
  }

  // ---------------------------------------------------------------- the splitter finds the words

  function StateAfter(env: Environment, t: Token, words: Words): Option<Splitter> {
    match After(env, t, words)
    case Some(next) => Some(StateOf(next))
    case None => None
  }

  predicate Runs(env: Environment, raw: string, i: nat, words: Words, t: Token) {
    Leads(env, raw, i, StateOf(words), i + |PrintToken(t)|, StateAfter(env, t, words))
  }

  /** The state behind an opening quotation mark. */
  function Opened(words: Words, mark: char): Splitter {
    StateOf(words).(quote := Some(mark), inField := true)
  }

  lemma QuotedIsThere(raw: string, i: nat, mark: char, inside: string)
    requires At(raw, i, [mark] + inside + [mark])
    ensures var end := i + 1 + |inside|;
      end < |raw| && raw[i] == mark && At(raw, i + 1, inside) && raw[end] == mark
  {
    var end := i + 1 + |inside|;
    AtSplits(raw, i, [mark] + inside, [mark]);
    AtSplits(raw, i, [mark], inside);
    AtChar(raw, i, [mark], 0);
    AtChar(raw, end, [mark], 0);
  }

  lemma MarkOpens(env: Environment, raw: string, i: nat, words: Words, mark: char)
    requires i < |raw| && raw[i] == mark && (mark == '"' || mark == '\'')
    ensures Leads(env, raw, i, StateOf(words), i + 1, Some(Opened(words, mark)))
  {
    TurnRuns(env, raw, i, StateOf(words), i + 1, Opened(words, mark));
  }

  lemma MarkCloses(env: Environment, raw: string, i: nat, words: Words, mark: char, text: string)
    requires i < |raw| && raw[i] == mark && (mark == '"' || mark == '\'')
    requires i + 1 < |raw| || i + 1 == |raw|
    ensures var open := Opened(words, mark);
      Leads(env, raw, i, open.(current := open.current + text), i + 1, Some(StateOf(words.Add(text))))
  {
    var open := Opened(words, mark);
    TurnRuns(env, raw, i, open.(current := open.current + text), i + 1, StateOf(words.Add(text)));
  }

  lemma QuotedRuns(env: Environment, raw: string, i: nat, words: Words, mark: char, pieces: seq<Piece>)
    requires At(raw, i, PrintQuoted(mark, pieces)) && TokenFits(Quoted(mark, pieces), true)
    ensures Runs(env, raw, i, words, Quoted(mark, pieces))
  {
    hide SplitFrom, PieceFits, PiecesText, PieceText, PrintPiece;
    var parts := PrintedPieces(pieces);
    var open := Opened(words, mark);
    var end := i + 1 + |Concat(parts)|;
    var value := PiecesText(env, pieces);
    QuotedIsThere(raw, i, mark, Concat(parts));
    MarkOpens(env, raw, i, words, mark);
    PiecesRun(env, raw, i + 1, open, mark, pieces, parts);
    PiecesAreThere(env, pieces);
    LeadsTwice(env, raw, i, StateOf(words), i + 1, open, end, Pushed(open, value));
    if value.Text? {
      MarkCloses(env, raw, end, words, mark, value.text);
      LeadsTwice(env, raw, i, StateOf(words), end, open.(current := open.current + value.text), end + 1,
        Some(StateOf(words.Add(value.text))));
    }
  }

  lemma PlainTokenRuns(env: Environment, raw: string, i: nat, words: Words, t: Token)
    requires t.Bare? || t.White? || t.Variable?
    requires TokenFits(t, words.current.Some?) && At(raw, i, PrintToken(t))
    ensures Runs(env, raw, i, words, t)
  {
    var s := StateOf(words);
    match t
    case Bare(c) =>
      AtChar(raw, i, [c], 0);
      TurnRuns(env, raw, i, s, i + 1, StateOf(words.Add([c])));
    case White(c) =>
      AtChar(raw, i, [c], 0);
      TurnRuns(env, raw, i, s, i + 1, StateOf(words.Finish()));
    case Variable(name) =>
      ReferenceTurn(env, raw, i, s, name);
  }

  lemma CodeTokenRuns(env: Environment, raw: string, i: nat, words: Words, t: Token)
    requires (t.BareCode? && Unescaped(t.code).Some?) || t.Underscore?
    requires At(raw, i, PrintToken(t))
    ensures Runs(env, raw, i, words, t)
  {
    var s := StateOf(words);
    var code := if t.BareCode? then t.code else '_';
    assert PrintToken(t) == ['\\', code];
    CodeTurns(env, raw, i, s, code);
    TurnRuns(env, raw, i, s, i + 1, s.(escaped := true));
    TurnRuns(env, raw, i + 1, s.(escaped := true), i + 2, StateOf(After(env, t, words).value));
  }

  /** The splitter passes over one written token with exactly its effect on the words. */
  lemma TokenRuns(env: Environment, raw: string, i: nat, words: Words, t: Token)
    requires TokenFits(t, words.current.Some?) && At(raw, i, PrintToken(t))
    ensures Runs(env, raw, i, words, t)
  {
    match t
    case Quoted(mark, pieces) => QuotedRuns(env, raw, i, words, mark, pieces);
    case BareCode(_) => CodeTokenRuns(env, raw, i, words, t);
    case Underscore => CodeTokenRuns(env, raw, i, words, t);
    case _ => PlainTokenRuns(env, raw, i, words, t);
  }

  predicate IsEnding(raw: string, i: nat, ending: Ending) {
    i <= |raw| && raw[i..] == PrintEnding(ending)
  }

  lemma EndingRuns(env: Environment, raw: string, i: nat, words: Words, ending: Ending)
    requires IsEnding(raw, i, ending)
    requires ending.Comment? ==> words.current.None?
    ensures Rest(env, raw, i, StateOf(words)) == Some(words.All())
  {
    var s := StateOf(words);
    match ending
    case Nothing =>
    case Comment(text) =>
      assert raw[i] == raw[i..][0];
    case Cut(text) =>
      assert raw[i..i + 2] == raw[i..][..2];
      CodeTurns(env, raw, i, s, 'c');
      TurnRuns(env, raw, i, s, i + 1, s.(escaped := true));
  }

  predicate Written(tokens: seq<Token>, parts: seq<string>) {
    |parts| == |tokens| && forall k :: 0 <= k < |parts| ==> parts[k] == PrintToken(tokens[k])
  }

  lemma {:induction false} TokensRun(env: Environment, raw: string, i: nat, tokens: seq<Token>, parts: seq<string>,
      words: Words, ending: Ending)
    requires Written(tokens, parts) && At(raw, i, Concat(parts)) && IsEnding(raw, i + |Concat(parts)|, ending)
    requires Fits(env, tokens, words, ending)
    ensures Rest(env, raw, i, StateOf(words)) == Denote(env, tokens, words)
    decreases |tokens|
  {
    hide SplitFrom, After, TokenFits, PrintToken, PrintEnding;
    if tokens == [] {
      EndingRuns(env, raw, i, words, ending);
    } else {
      FirstPart(raw, i, parts);
      var next := TokenStep(env, raw, i, tokens, parts[0], words, ending);
      if next.Some? {
        TokensRun(env, raw, i + |parts[0]|, tokens[1..], parts[1..], next.value, ending);
      }
    }
  }

  /** The splitter behind one token, and what is left to denote. */
  lemma TokenStep(env: Environment, raw: string, i: nat, tokens: seq<Token>, part: string, words: Words, ending: Ending)
    returns (next: Option<Words>)
    requires tokens != [] && part == PrintToken(tokens[0]) && At(raw, i, part) && Fits(env, tokens, words, ending)
    ensures i + |part| <= |raw|
    ensures next.None? ==> Rest(env, raw, i, StateOf(words)) == None && Denote(env, tokens, words) == None
    ensures next.Some? ==>
      && Rest(env, raw, i, StateOf(words)) == Rest(env, raw, i + |part|, StateOf(next.value))
      && Denote(env, tokens, words) == Denote(env, tokens[1..], next.value)
      && Fits(env, tokens[1..], next.value, ending)
  {
    TokenRuns(env, raw, i, words, tokens[0]);
    next := After(env, tokens[0], words);
  }

  /** The splitter gives exactly the words that the tokens stand for, and fails exactly where a
      variable they refer to is not Unicode. */
  lemma SplitDenotes(env: Environment, tokens: seq<Token>, ending: Ending)
    requires Fits(env, tokens, NO_WORDS, ending)
    ensures Split(env, Line(tokens, ending)) == Denote(env, tokens, NO_WORDS)
  {
    var parts := PrintedTokens(tokens);
    LineIsThere(Concat(parts), ending);
    TokensRun(env, Concat(parts) + PrintEnding(ending), 0, tokens, parts, NO_WORDS, ending);
  }

  lemma LineIsThere(text: string, ending: Ending)
    ensures At(text + PrintEnding(ending), 0, text) && IsEnding(text + PrintEnding(ending), |text|, ending)
  {
  }

  // ---------------------------------------------------------------- what splits is written so

  /** The turns that lead nowhere: what a text that splits cannot hold. */
  lemma NowhereToGo(env: Environment, raw: string, i: nat, s: Splitter)
    requires i < |raw| && Rest(env, raw, i, s).Some?
    ensures !TurnAt(env, raw, i, s).Invalid?
    ensures s.escaped ==> !AfterBackslash(s, raw[i], i + 1).Invalid?
  {
  }

  lemma BackslashIsFollowed(env: Environment, raw: string, i: nat, s: Splitter) returns (code: char)
    requires i < |raw| && raw[i] == '\\' && !s.escaped && Rest(env, raw, i, s).Some?
    requires TurnAt(env, raw, i, s) == Go(i + 1, s.(escaped := true))
    ensures At(raw, i, ['\\', code])
    ensures code == '_' || (code == 'c' && s.quote.None?) || Unescaped(code).Some?
  {
    TurnRuns(env, raw, i, s, i + 1, s.(escaped := true));
    NowhereToGo(env, raw, i + 1, s.(escaped := true));
    code := raw[i + 1];
  }

  lemma ReferenceIsWritten(env: Environment, raw: string, i: nat, s: Splitter) returns (name: string)
    requires i < |raw| && raw[i] == '$' && !s.escaped && !s.Quoting('\'') && Rest(env, raw, i, s).Some?
    ensures IsValidEnvName(name) && At(raw, i, "${" + name + "}")
  {
    NowhereToGo(env, raw, i, s);
    var brace := IndexOf(raw, i + 2, '}');
    name := raw[i + 2..brace];
    assert raw[i..brace + 1] == "${" + name + "}";
  }

  /** The piece that stands at `i` between the quotation marks. */
  lemma PieceIsThere(env: Environment, raw: string, i: nat, s: Splitter, mark: char) returns (p: Piece)
    requires IsInside(s, mark) && i < |raw| && raw[i] != mark && Rest(env, raw, i, s).Some?
    ensures PieceFits(mark, p) && At(raw, i, PrintPiece(p))
  {
    var c := raw[i];
    if c == '\\' && mark == '\'' && (i + 1 == |raw| || raw[i + 1] !in {'\\', '\''}) {
      TurnRuns(env, raw, i, s, i + 1, s.Push([c]));
      p := Backslash(raw[i + 1]);
    } else if c == '\\' {
      var code := BackslashIsFollowed(env, raw, i, s);
      p := Code(code);
    } else if c == '$' && mark == '"' {
      var name := ReferenceIsWritten(env, raw, i, s);
      p := Reference(name);
    } else {
      p := Char(c);
    }
  }

  /** The piece at `i` and the splitter behind it. */
  lemma PieceIsPassed(env: Environment, raw: string, i: nat, s: Splitter, mark: char) returns (p: Piece, next: Splitter)
    requires IsInside(s, mark) && i < |raw| && raw[i] != mark && Rest(env, raw, i, s).Some?
    ensures PieceFits(mark, p) && At(raw, i, PrintPiece(p)) && PrintPiece(p) != ""
    ensures IsInside(next, mark) && Rest(env, raw, i + |PrintPiece(p)|, next).Some?
  {
    p := PieceIsThere(env, raw, i, s, mark);
    PieceRuns(env, raw, i, s, mark, p);
    next := Pushed(s, PieceText(env, p)).value;
  }

  lemma FirstPiece(p: Piece, rest: seq<Piece>)
    ensures Concat(PrintedPieces([p] + rest)) == PrintPiece(p) + Concat(PrintedPieces(rest))
  {
    assert PrintedPieces([p] + rest)[1..] == PrintedPieces(rest);
  }

  lemma QuoteIsClosed(env: Environment, raw: string, i: nat, s: Splitter, mark: char)
    requires IsInside(s, mark) && i <= |raw| && Rest(env, raw, i, s).Some?
    ensures i < |raw|
  {
  }

  /** The pieces up to the closing quotation mark. */
  lemma {:induction false} PiecesAreWritten(env: Environment, raw: string, i: nat, s: Splitter, mark: char)
    returns (pieces: seq<Piece>)
    requires IsInside(s, mark) && i <= |raw| && Rest(env, raw, i, s).Some?
    ensures forall p <- pieces :: PieceFits(mark, p)
    ensures At(raw, i, Concat(PrintedPieces(pieces)) + [mark])
    decreases |raw| - i
  {
    hide SplitFrom, PieceFits, PrintPiece;
    QuoteIsClosed(env, raw, i, s, mark);
    if raw[i] == mark {
      pieces := [];
      assert Concat(PrintedPieces(pieces)) + [mark] == [mark];
    } else {
      var p, next := PieceIsPassed(env, raw, i, s, mark);
      var rest := PiecesAreWritten(env, raw, i + |PrintPiece(p)|, next, mark);
      pieces := [p] + rest;
      FirstPiece(p, rest);
      AtJoins(raw, i, PrintPiece(p), Concat(PrintedPieces(rest)) + [mark]);
      assert PrintPiece(p) + (Concat(PrintedPieces(rest)) + [mark]) == Concat(PrintedPieces(pieces)) + [mark];
    }
  }

  lemma AtJoins(s: string, i: nat, a: string, b: string)
    requires At(s, i, a) && At(s, i + |a|, b)
    ensures At(s, i, a + b)
  {
    assert s[i..i + |a + b|] == s[i..i + |a|] + s[i + |a|..i + |a| + |b|];
  }

  lemma QuotedIsWritten(env: Environment, raw: string, i: nat, words: Words) returns (t: Token)
    requires i < |raw| && raw[i] in {'"', '\''} && Rest(env, raw, i, StateOf(words)).Some?
    ensures TokenFits(t, true) && t.Quoted? && At(raw, i, PrintToken(t))
  {
    var mark := raw[i];
    MarkOpens(env, raw, i, words, mark);
    var pieces := PiecesAreWritten(env, raw, i + 1, Opened(words, mark), mark);
    t := Quoted(mark, pieces);
    AtJoins(raw, i, [mark], Concat(PrintedPieces(pieces)) + [mark]);
    assert [mark] + (Concat(PrintedPieces(pieces)) + [mark]) == PrintToken(t);
  }

  /** The line ends at `i`, or goes on after a comment sign or a `\c`. */
  predicate EndsAt(raw: string, i: nat, words: Words) {
    i >= |raw| || (raw[i] == '#' && words.current.None?) || At(raw, i, "\\c")
  }

  lemma EndingIsWritten(raw: string, i: nat, words: Words) returns (ending: Ending)
    requires i <= |raw| && EndsAt(raw, i, words)
    ensures IsEnding(raw, i, ending) && (ending.Comment? ==> words.current.None?)
  {
    if i == |raw| {
      ending := Nothing;
    } else if raw[i] == '#' && words.current.None? {
      ending := Comment(raw[i + 1..]);
    } else {
      ending := Cut(raw[i + 2..]);
      assert raw[i..] == raw[i..i + 2] + raw[i + 2..];
    }
  }

  lemma TokenIsWritten(env: Environment, raw: string, i: nat, words: Words) returns (t: Token)
    requires i < |raw| && !EndsAt(raw, i, words) && Rest(env, raw, i, StateOf(words)).Some?
    ensures TokenFits(t, words.current.Some?) && At(raw, i, PrintToken(t))
  {
    var c, s := raw[i], StateOf(words);
    if c == '"' || c == '\'' {
      t := QuotedIsWritten(env, raw, i, words);
    } else if c == '\\' {
      var code := BackslashIsFollowed(env, raw, i, s);
      t := if code == '_' then Underscore else BareCode(code);
    } else if c == '$' {
      var name := ReferenceIsWritten(env, raw, i, s);
      t := Variable(name);
    } else {
      t := if IsAsciiWhitespace(c) then White(c) else Bare(c);
    }
  }

  /** The token at `i` and the words behind it. */
  lemma TokenIsPassed(env: Environment, raw: string, i: nat, words: Words) returns (t: Token, next: Words)
    requires i < |raw| && !EndsAt(raw, i, words) && Rest(env, raw, i, StateOf(words)).Some?
    ensures TokenFits(t, words.current.Some?) && At(raw, i, PrintToken(t)) && PrintToken(t) != ""
    ensures After(env, t, words) == Some(next)
    ensures Rest(env, raw, i + |PrintToken(t)|, StateOf(next)).Some?
  {
    t := TokenIsWritten(env, raw, i, words);
    TokenRuns(env, raw, i, words, t);
    next := After(env, t, words).value;
  }

  /** Tokens are taken one by one. */
  lemma FirstTokenGoes(env: Environment, t: Token, rest: seq<Token>, words: Words, next: Words, ending: Ending)
    requires TokenFits(t, words.current.Some?) && After(env, t, words) == Some(next)
    ensures Fits(env, [t] + rest, words, ending) == Fits(env, rest, next, ending)
    ensures Denote(env, [t] + rest, words) == Denote(env, rest, next)
  {
    assert ([t] + rest)[1..] == rest;
  }

  lemma FirstTokenPrints(t: Token, rest: seq<Token>, ending: Ending)
    ensures Line([t] + rest, ending) == PrintToken(t) + Line(rest, ending)
  {
    assert PrintedTokens([t] + rest)[1..] == PrintedTokens(rest);
    assert PrintToken(t) + Concat(PrintedTokens(rest)) + PrintEnding(ending)
        == PrintToken(t) + (Concat(PrintedTokens(rest)) + PrintEnding(ending));
  }

  lemma {:induction false} LineIsWritten(env: Environment, raw: string, i: nat, words: Words)
    returns (tokens: seq<Token>, ending: Ending)
    requires i <= |raw| && Rest(env, raw, i, StateOf(words)).Some?
    ensures Fits(env, tokens, words, ending) && raw[i..] == Line(tokens, ending)
    decreases |raw| - i
  {
    hide SplitFrom, After, TokenFits, PrintToken;
    if EndsAt(raw, i, words) {
      tokens := [];
      ending := EndingIsWritten(raw, i, words);
      assert "" + PrintEnding(ending) == PrintEnding(ending);
    } else {
      var t, next := TokenIsPassed(env, raw, i, words);
      var k := i + |PrintToken(t)|;
      var rest: seq<Token>;
      rest, ending := LineIsWritten(env, raw, k, next);
      tokens := [t] + rest;
      FirstTokenGoes(env, t, rest, words, next, ending);
      FirstTokenPrints(t, rest, ending);
      assert raw[i..] == raw[i..k] + raw[k..];
    }
  }

  /** A text splits exactly if it is a written line whose references are Unicode, and then into
      the words of that line. */
  lemma SplitExactly(env: Environment, raw: string, fields: seq<string>)
    ensures Split(env, raw) == Some(fields) <==>
      exists tokens, ending :: Means(env, raw, tokens, ending, fields)
  {
    if Split(env, raw) == Some(fields) {
      var tokens, ending := LineIsWritten(env, raw, 0, NO_WORDS);
      assert raw[0..] == raw;
      SplitDenotes(env, tokens, ending);
      assert Means(env, raw, tokens, ending, fields);
    }
    forall tokens, ending | Means(env, raw, tokens, ending, fields)
      ensures Split(env, raw) == Some(fields)
    {
      SplitDenotes(env, tokens, ending);
    }
  }

  predicate Means(env: Environment, raw: string, tokens: seq<Token>, ending: Ending, fields: seq<string>) {
    && raw == Line(tokens, ending)
    && Fits(env, tokens, NO_WORDS, ending)
    && Denote(env, tokens, NO_WORDS) == Some(fields)
  }

  // ---------------------------------------------------------------- quoting

  /** A text to be passed on as it is, and the quotation mark to put it in. */
  datatype Item = Item(mark: char, text: string) {
    predicate Valid() {
      mark == '"' || mark == '\''
    }
  }

  /** How a character is written between quotation marks. */
  function Escape(mark: char, c: char): Piece {
    if c == '\\' || c == mark || (c == '$' && mark == '"') then Code(c) else Char(c)
  }

  function Escaped(mark: char, text: string): seq<Piece> {
    if text == "" then [] else [Escape(mark, text[0])] + Escaped(mark, text[1..])
  }

  function QuotedItem(item: Item): Token {
    Quoted(item.mark, Escaped(item.mark, item.text))
  }

  /** The items in quotation marks, with blanks between them. */
  function Quoting(items: seq<Item>): seq<Token> {
    if items == [] then []
    else [QuotedItem(items[0])] + if |items| == 1 then [] else [White(' ')] + Quoting(items[1..])
  }

  function Texts(items: seq<Item>): seq<string> {
    if items == [] then [] else [items[0].text] + Texts(items[1..])
  }

  lemma EscapeMeansItself(env: Environment, mark: char, c: char)
    requires mark == '"' || mark == '\''
    ensures PieceFits(mark, Escape(mark, c)) && PieceText(env, Escape(mark, c)) == Text([c])
  {
  }

  lemma {:induction false} EscapedMeansText(env: Environment, mark: char, text: string)
    requires mark == '"' || mark == '\''
    ensures forall p <- Escaped(mark, text) :: PieceFits(mark, p)
    ensures PiecesText(env, Escaped(mark, text)) == Text(text)
    decreases |text|
  {
    if text != "" {
      EscapeMeansItself(env, mark, text[0]);
      EscapedMeansText(env, mark, text[1..]);
      assert Escaped(mark, text)[1..] == Escaped(mark, text[1..]);
    }
  }

  lemma ItemAdds(env: Environment, item: Item, done: seq<string>)
    requires item.Valid()
    ensures TokenFits(QuotedItem(item), false)
    ensures After(env, QuotedItem(item), Words(done, None)) == Some(Words(done, Some(item.text)))
  {
    EscapedMeansText(env, item.mark, item.text);
    assert "" + item.text == item.text;
  }

  lemma {:induction false} QuotingDenotes(env: Environment, items: seq<Item>, done: seq<string>)
    requires forall item <- items :: item.Valid()
    ensures Fits(env, Quoting(items), Words(done, None), Nothing)
    ensures Denote(env, Quoting(items), Words(done, None)) == Some(done + Texts(items))
    decreases |items|
  {
    if items == [] {
      assert done + [] == done;
    } else {
      var item := items[0];
      var open := Words(done, Some(item.text));
      var rest := if |items| == 1 then [] else [White(' ')] + Quoting(items[1..]);
      ItemAdds(env, item, done);
      FirstTokenGoes(env, QuotedItem(item), rest, Words(done, None), open, Nothing);
      assert done + Texts(items) == done + [item.text] + Texts(items[1..]);
      if |items| == 1 {
        assert done + [item.text] + [] == done + [item.text];
      } else {
        FirstTokenGoes(env, White(' '), Quoting(items[1..]), open, Words(done + [item.text], None), Nothing);
        QuotingDenotes(env, items[1..], done + [item.text]);
      }
    }
  }

  /** Quoting any texts and splitting gives the texts back, whatever the environment. */
  lemma QuotingRoundTrip(env: Environment, items: seq<Item>)
    requires forall item <- items :: item.Valid()
    ensures Split(env, Line(Quoting(items), Nothing)) == Some(Texts(items))
  {
    QuotingDenotes(env, items, []);
    SplitDenotes(env, Quoting(items), Nothing);
    assert [] + Texts(items) == Texts(items);
  }

  // ---------------------------------------------------------------- characters by their codes

  lemma LastTurnEnds(env: Environment, raw: string, i: nat, s: Splitter, t: Splitter)
    requires i < |raw| && TurnAt(env, raw, i, s) == Go(|raw|, t)
    ensures Rest(env, raw, i, s) == Finish(t)
  {
    TurnRuns(env, raw, i, s, |raw|, t);
  }

  lemma TurnStops(env: Environment, raw: string, i: nat, s: Splitter, t: Splitter)
    requires i < |raw| && TurnAt(env, raw, i, s) == Stop(t)
    ensures Rest(env, raw, i, s) == Finish(t)
  {
  }

  lemma TurnFails(env: Environment, raw: string, i: nat, s: Splitter)
    requires i < |raw| && TurnAt(env, raw, i, s) == Turn.Invalid
    ensures Rest(env, raw, i, s) == None
  {
  }

  /** Every two-character escape: the five control characters, the five that stand for themselves,
      the two that are no text, and all others, which are refused. */
  lemma EscapesByCode(env: Environment, c: char)
    ensures Split(env, ['\\', c]) ==
      if c as int == 110 then Some([[10 as char]])
      else if c as int == 116 then Some([[9 as char]])
      else if c as int == 114 then Some([[13 as char]])
      else if c as int == 102 then Some([[12 as char]])
      else if c as int == 118 then Some([[11 as char]])
      else if c as int in {34, 35, 36, 39, 92} then Some([[c]])
      else if c as int in {95, 99} then Some([])
      else None
  {
    var raw := ['\\', c];
    var s := START.(escaped := true);
    TurnRuns(env, raw, 0, START, 1, s);
    hide SplitFrom;
    match AfterBackslash(s, c, 2)
    case Go(_, t) =>
      LastTurnEnds(env, raw, 1, s, t);
      if Unescaped(c).Some? {
        assert "" + [Unescaped(c).value] == [Unescaped(c).value];
        assert START.fields + [t.current] == [t.current];
      }
    case Stop(t) =>
      TurnStops(env, raw, 1, s, t);
    case Invalid =>
      TurnFails(env, raw, 1, s);
  }

  /** The five characters that separate words; any other but the four with a meaning is part of one. */
  lemma BlanksByCode(env: Environment, c: char)
    requires c as int !in {34, 36, 39, 92}
    ensures Split(env, ['a', c, 'b']) ==
      if c as int in {9, 10, 12, 13, 32} then Some(["a", "b"]) else Some([['a', c, 'b']])
  {
    var raw := ['a', c, 'b'];
    var one := START.Push("a");
    TurnRuns(env, raw, 0, START, 1, one);
    var two := if IsAsciiWhitespace(c) then one.EndField() else one.Push([c]);
    TurnRuns(env, raw, 1, one, 2, two);
    LastTurnEnds(env, raw, 2, two, two.Push("b"));
    assert "" + "a" == "a" && "" + "b" == "b" && "a" + [c] + "b" == ['a', c, 'b'];
    assert START.fields + ["a"] == ["a"] && ["a"] + ["b"] == ["a", "b"];
    assert START.fields + [['a', c, 'b']] == [['a', c, 'b']];
  }
}
