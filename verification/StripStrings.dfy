/** Stripping strings. */
module StripStrings {
  /** A call's arguments, and their code without the text of string literals. */

  import opened Common

  const SINGLE: Unit := '\'' as int
  const DOUBLE: Unit := '"' as int
  const BACKTICK: Unit := '`' as int
  const BACKSLASH: Unit := '\\' as int
  const OPEN: Unit := '{' as int
  const CLOSE: Unit := '}' as int

  // -------------------------------------------------------- the arguments

  const OPEN_PAREN: Unit := '(' as int
  const CLOSE_PAREN: Unit := ')' as int

  /** How many parentheses a text leaves open. */
  function Nesting(t: Text): int {
    if t == [] then 0
    else
      var u := t[|t| - 1];
      Nesting(t[..|t| - 1]) + (if u == OPEN_PAREN then 1 else if u == CLOSE_PAREN then -1 else 0)
  }

  /** No prefix closes more than it opened. */
  ghost predicate StaysInside(t: Text) {
    forall k | 0 <= k <= |t| :: NestingAt(t, k) >= 0
  }

  function NestingAt(t: Text, k: nat): int
    requires k <= |t|
  {
    Nesting(t[..k])
  }

  /** The text a call's closing parenthesis ends. */
  ghost predicate IsClosed(rest: Text, args: Text) {
    && |args| < |rest| && rest[..|args|] == args
    && rest[|args|] == CLOSE_PAREN && Nesting(args) == 0 && StaysInside(args)
  }

  lemma {:induction false} NestingSnoc(t: Text, i: nat)
    requires i < |t|
    ensures Nesting(t[..i + 1])
         == Nesting(t[..i]) + (if t[i] == OPEN_PAREN then 1 else if t[i] == CLOSE_PAREN then -1 else 0)
  {
    assert t[..i + 1][..i] == t[..i];
  }

  lemma {:induction false} StaysInsideMore(t: Text, i: nat)
    requires i < |t| && StaysInside(t[..i]) && Nesting(t[..i + 1]) >= 0
    ensures StaysInside(t[..i + 1])
  {
    var more, less := t[..i + 1], t[..i];
    forall k | 0 <= k <= |more| ensures NestingAt(more, k) >= 0 {
      if k <= i {
        assert more[..k] == less[..k];
        assert NestingAt(less, k) >= 0;
      } else {
        assert more[..k] == more;
      }
    }
  }

  lemma {:induction false} ClosedSteps(rest: Text, args: Text, n: nat)
    requires IsClosed(rest, args) && |args| < n <= |rest|
    ensures !StaysInside(rest[..n])
  {
    NestingSnoc(rest, |args|);
    assert rest[..n][..|args| + 1] == rest[..|args| + 1];
    assert NestingAt(rest[..n], |args| + 1) == -1;
  }

  /** Only one text is closed by the call's parenthesis, and then the rest steps outside. */
  lemma {:induction false} ClosedIsUnique(rest: Text, a: Text, b: Text)
    requires IsClosed(rest, a)
    ensures !StaysInside(rest)
    ensures IsClosed(rest, b) ==> a == b
  {
    assert rest[..|rest|] == rest;
    ClosedSteps(rest, a, |rest|);
    if IsClosed(rest, b) && |a| != |b| {
      if |a| < |b| {
        ClosedSteps(rest, a, |b|);
      } else {
        ClosedSteps(rest, b, |a|);
      }
    }
  }

  /** What is taken for the arguments: the text that is closed, or of one never closed all but its last unit. */
  ghost predicate IsTaken(rest: Text, args: Text) {
    || IsClosed(rest, args)
    || (StaysInside(rest) && args == rest[..if rest == [] then 0 else |rest| - 1])
  }

  /** On every text exactly one is taken. */
  lemma {:induction false} TakenIsUnique(rest: Text, a: Text, b: Text)
    requires IsTaken(rest, a) && IsTaken(rest, b)
    ensures a == b
  {
    hide StaysInside;
    if IsClosed(rest, a) {
      ClosedIsUnique(rest, a, b);
    } else if IsClosed(rest, b) {
      ClosedIsUnique(rest, b, a);
    }
  }

  /**
   * argumentsAt, from just behind the opening parenthesis. Parentheses in strings count as
   * any other, and a call that is never closed loses the last unit of its text.
   */
  method ArgumentsAt(source: Text, open: nat) returns (args: Text)
    requires open <= |source|
    ensures IsTaken(source[open..], args)
  {
    ghost var rest := source[open..];
    var depth := 1;
    var index := open;
    assert rest[..0] == [];
    while index < |source| && depth > 0
      invariant open <= index <= |source| && depth >= 0
      invariant depth == 1 + Nesting(rest[..index - open])
      invariant depth > 0 ==> StaysInside(rest[..index - open])
      invariant depth == 0 ==> index > open && IsClosed(rest, rest[..index - open - 1])
    {
      var unit := source[index];
      NestingSnoc(rest, index - open);
      if unit == OPEN_PAREN {
        depth := depth + 1;
      }
      if unit == CLOSE_PAREN {
        depth := depth - 1;
      }
      index := index + 1;
      if depth > 0 {
        StaysInsideMore(rest, index - open - 1);
      }
    }
    assert rest[..|rest|] == rest;
    args := if index > open then source[open..index - 1] else [];
    assert index > open ==> args == rest[..index - open - 1];
  }

  /** Parentheses as the text has them: the call's own closes the arguments. */
  ghost predicate ClosesHere(a: Text, more: Text) {
    || (Nesting(a) == 0 && StaysInside(a))
    || (more == [] && StaysInside(a + [CLOSE_PAREN]))
  }

  /**
   * Of a call with arguments `a`, what is taken is `a` exactly if the parentheses in `a`,
   * those in its strings included, close each other in order; or if nothing follows the call
   * and they leave at least one open.
   */
  lemma {:induction false} ArgumentsExactly(a: Text, more: Text, args: Text)
    requires IsTaken(a + [CLOSE_PAREN] + more, args)
    ensures args == a <==> ClosesHere(a, more)
  {
    var rest := a + [CLOSE_PAREN] + more;
    assert rest[..|a|] == a && rest[|a|] == CLOSE_PAREN;
    assert IsClosed(rest, a) <==> Nesting(a) == 0 && StaysInside(a);
    assert more == [] ==> rest == a + [CLOSE_PAREN];
    assert more == [] ==> a == rest[..|rest| - 1];
    hide StaysInside, Nesting;
    if IsClosed(rest, a) {
      ClosedIsUnique(rest, a, args);
      assert IsTaken(rest, a);
      TakenIsUnique(rest, a, args);
    } else if more == [] && StaysInside(rest) {
      assert IsTaken(rest, a);
      TakenIsUnique(rest, a, args);
    }
  }

  // ---------------------------------------------------------- the machine

  datatype Mode = Code | Template

  /** The lexer's variables: mode stack, brace depths, open quote, output. */
  datatype State = State(stack: seq<Mode>, braces: seq<nat>, quote: Option<Unit>, code: Text)

  const START: State := State([Code], [], None, [])

  function Top<T>(s: seq<T>): T
    requires s != []
  {
    s[|s| - 1]
  }

  function Pop<T>(s: seq<T>): (r: seq<T>)
    requires s != []
    ensures |r| == |s| - 1
  {
    s[..|s| - 1]
  }

  /** Code and template alternate from the bottom, one brace depth an interpolation. */
  ghost predicate Shape(s: State) {
    && s.stack != []
    && (forall i | 0 <= i < |s.stack| :: s.stack[i] == if i % 2 == 0 then Code else Template)
    && |s.braces| == (|s.stack| - 1) / 2
    && (s.quote.Some? ==> Top(s.stack) == Code)
  }

  function Rest(t: Text, n: nat): Text {
    if n <= |t| then t[n..] else []
  }

  function InQuote(s: State, u: Unit): State
    requires s.quote.Some?
  {
    if u == s.quote.value then s.(quote := None) else s
  }

  function Emit(s: State, t: Text): State {
    s.(code := s.code + t)
  }

  /** A code unit met in template text; an interpolation opens over two units. */
  function InTemplate(s: State, u: Unit, opens: bool): State
    requires s.stack != []
  {
    if u == BACKTICK then Emit(s.(stack := Pop(s.stack)), [SPACE])
    else if opens then Emit(s.(stack := s.stack + [Code], braces := s.braces + [0]), [SPACE])
    else s
  }

  function InCode(s: State, u: Unit): State
    requires s.stack != []
  {
    if u == SINGLE || u == DOUBLE then Emit(s.(quote := Some(u)), [SPACE])
    else if u == BACKTICK then s.(stack := s.stack + [Template])
    else if u == OPEN && s.braces != [] then
      Emit(s.(braces := Pop(s.braces) + [Top(s.braces) + 1]), [u])
    else if u == CLOSE && s.braces != [] then
      if Top(s.braces) == 0 then Emit(s.(stack := Pop(s.stack), braces := Pop(s.braces)), [SPACE])
      else Emit(s.(braces := Pop(s.braces) + [Top(s.braces) - 1]), [u])
    else Emit(s, [u])
  }

  predicate Opens(t: Text) {
    |t| >= 2 && t[0] == DOLLAR && t[1] == OPEN
  }

  /** What one turn of the loop does to the variables, and how far it moves. */
  function TurnOn(u: Unit, opens: bool, s: State): (State, nat)
    requires s.stack != []
  {
    if s.quote.Some? then
      if u == BACKSLASH then (s, 2) else (InQuote(s, u), 1)
    else if Top(s.stack) == Template then
      if u == BACKSLASH then (s, 2) else (InTemplate(s, u, opens), if opens then 2 else 1)
    else (InCode(s, u), 1)
  }

  function Turn(t: Text, s: State): (State, nat)
    requires t != [] && s.stack != []
  {
    TurnOn(t[0], Opens(t), s)
  }

  lemma {:induction false} TurnKeepsShape(t: Text, s: State)
    requires t != [] && Shape(s)
    ensures Shape(Turn(t, s).0)
  {
    var n := |s.stack|;
    assert Top(s.stack) == s.stack[n - 1];
    assert Top(s.stack) == Code ==> n % 2 == 1;
    assert Top(s.stack) == Template ==> n % 2 == 0;
  }

  function Feed(t: Text, s: State): (r: State)
    requires Shape(s)
    ensures Shape(r)
    decreases |t|
  {
    if t == [] then s
    else
      TurnKeepsShape(t, s);
      var (next, n) := Turn(t, s);
      Feed(Rest(t, n), next)
  }

  /** stripStrings, as a function of the text. */
  function Stripped(text: Text): Text {
    Feed(text, START).code
  }

  predicate OpensAt(text: Text, index: nat)
    requires index < |text|
  {
    text[index] == DOLLAR && index + 1 < |text| && text[index + 1] == OPEN
  }

  lemma {:induction false} FeedStep(t: Text, s: State)
    requires Shape(s) && t != []
    ensures s.stack != [] && Shape(Turn(t, s).0) && Feed(t, s) == Feed(Rest(t, Turn(t, s).1), Turn(t, s).0)
  {
    TurnKeepsShape(t, s);
  }

  lemma {:induction false} FeedAt(text: Text, index: nat, s: State)
    requires Shape(s) && index < |text|
    ensures s.stack != []
    ensures var (next, n) := TurnOn(text[index], OpensAt(text, index), s);
            n > 0 && Shape(next) && Feed(Rest(text, index), s) == Feed(Rest(text, index + n), next)
  {
    var t := Rest(text, index);
    FeedStep(t, s);
    hide Feed, Shape;
    assert Turn(t, s) == TurnOn(text[index], OpensAt(text, index), s);
    var n := Turn(t, s).1;
    assert Rest(t, n) == Rest(text, index + n);
  }

  /** The body's last branches: code, with braces counted inside interpolations only. */
  method CodeUnit(unit: Unit, was: State) returns (s: State)
    requires was.stack != [] && was.quote.None?
    ensures s == InCode(was, unit)
  {
    var stack, braces, quote, code := was.stack, was.braces, was.quote, was.code;
    if unit == SINGLE || unit == DOUBLE {
      quote := Some(unit);
      code := code + [SPACE];
    } else if unit == BACKTICK {
      stack := stack + [Template];
    } else if unit == OPEN && |braces| > 0 {
      var depth := braces[|braces| - 1];
      braces := braces[..|braces| - 1] + [depth + 1];
      code := code + [unit];
    } else if unit == CLOSE && |braces| > 0 {
      var depth := braces[|braces| - 1];
      braces := braces[..|braces| - 1];
      if depth == 0 {
        stack := stack[..|stack| - 1];
        code := code + [SPACE];
      } else {
        braces := braces + [depth - 1];
        code := code + [unit];
      }
    } else {
      code := code + [unit];
    }
    s := State(stack, braces, quote, code);
  }

  /** Template text: dropped, but for the spaces its end and its interpolations leave. */
  method TemplateUnit(unit: Unit, opens: bool, was: State) returns (s: State)
    requires was.stack != [] && was.quote.None?
    ensures s == InTemplate(was, unit, opens)
  {
    s := was;
    if unit == BACKTICK {
      s := s.(stack := s.stack[..|s.stack| - 1], code := s.code + [SPACE]);
    } else if opens {
      s := s.(stack := s.stack + [Code], braces := s.braces + [0], code := s.code + [SPACE]);
    }
  }

  /** The loop's body; an escape and an opening interpolation take one unit more. */
  method OneUnit(unit: Unit, opens: bool, was: State) returns (s: State, more: nat)
    requires was.stack != []
    ensures TurnOn(unit, opens, was) == (s, 1 + more)
  {
    s, more := was, 0;
    if s.quote.Some? {
      if unit == BACKSLASH {
        more := 1;
      } else if unit == s.quote.value {
        s := s.(quote := None);
      }
    } else if s.stack[|s.stack| - 1] == Template {
      if unit == BACKSLASH {
        more := 1;
      } else {
        s := TemplateUnit(unit, opens, s);
        more := if opens then 1 else 0;
      }
    } else {
      s := CodeUnit(unit, s);
    }
  }

  /**
   * The loop itself. On every text, whatever is left open in it: the mode stack alternates
   * and is never empty, and there is one brace depth for each interpolation on it.
   */
  method Strip(text: Text) returns (code: Text)
    ensures code == Stripped(text)
  {
    var s := START;
    var index: nat := 0;
    assert Rest(text, 0) == text;
    assert forall i: nat | i >= |text| :: Rest(text, i) == [];
    hide Feed, Shape, TurnOn, Rest;
    StartShape();
    while index < |text|
      invariant Shape(s)
      invariant Feed(Rest(text, index), s) == Feed(text, START)
    {
      FeedAt(text, index, s);
      var more;
      s, more := OneUnit(text[index], OpensAt(text, index), s);
      index := index + 1 + more;
    }
    FeedNothing(s);
    return s.code;
  }

  lemma {:induction false} StartShape()
    ensures Shape(START)
  {
  }

  lemma {:induction false} FeedNothing(s: State)
    requires Shape(s)
    ensures Feed([], s) == s
  {
  }

  // ---------------------------------------------------------- the grammar

  datatype Unescaped = Char(u: Unit) | Escaped(u: Unit)

  /** Code of a template's interpolation, or of the text's top level. */
  datatype Piece =
    | Plain(u: Unit)
    | Quoted(quote: Unit, items: seq<Unescaped>)
    | Braced(body: seq<Piece>)
    | Literal(parts: seq<Part>)

  datatype Part =
    | Raw(item: Unescaped)
    | Interpolation(body: seq<Piece>)

  ghost predicate ItemsOk(items: seq<Unescaped>, end: Unit) {
    forall i | 0 <= i < |items| && items[i].Char? :: items[i].u != end && items[i].u != BACKSLASH
  }

  /** Inside an interpolation braces come in pairs; at the top level they are plain text. */
  ghost predicate PieceOk(p: Piece, nested: bool) {
    match p
    case Plain(u) => u != SINGLE && u != DOUBLE && u != BACKTICK && (nested ==> u != OPEN && u != CLOSE)
    case Quoted(q, items) => (q == SINGLE || q == DOUBLE) && ItemsOk(items, q)
    case Braced(body) => nested && PiecesOk(body, true)
    case Literal(parts) => PartsOk(parts)
  }

  ghost predicate PiecesOk(ps: seq<Piece>, nested: bool) {
    ps == [] || (PieceOk(ps[0], nested) && PiecesOk(ps[1..], nested))
  }

  /** A dollar sign before a brace would open an interpolation. */
  ghost predicate PartsOk(parts: seq<Part>) {
    parts == [] || (
      && PartsOk(parts[1..])
      && match parts[0]
         case Raw(Char(u)) =>
           && u != BACKTICK && u != BACKSLASH
           && (u == DOLLAR ==> parts[1..] == [] || parts[1] != Raw(Char(OPEN)))
         case Raw(Escaped(_)) => true
         case Interpolation(body) => PiecesOk(body, true))
  }

  function PrintItem(item: Unescaped): Text {
    match item
    case Char(u) => [u]
    case Escaped(u) => [BACKSLASH, u]
  }

  function PrintItems(items: seq<Unescaped>): Text {
    if items == [] then [] else PrintItem(items[0]) + PrintItems(items[1..])
  }

  function PrintPiece(p: Piece): Text {
    match p
    case Plain(u) => [u]
    case Quoted(q, items) => [q] + PrintItems(items) + [q]
    case Braced(body) => [OPEN] + PrintPieces(body) + [CLOSE]
    case Literal(parts) => [BACKTICK] + PrintParts(parts) + [BACKTICK]
  }

  function PrintPieces(ps: seq<Piece>): Text {
    if ps == [] then [] else PrintPiece(ps[0]) + PrintPieces(ps[1..])
  }

  function PrintPart(part: Part): Text {
    match part
    case Raw(item) => PrintItem(item)
    case Interpolation(body) => [DOLLAR, OPEN] + PrintPieces(body) + [CLOSE]
  }

  function PrintParts(parts: seq<Part>): Text {
    if parts == [] then [] else PrintPart(parts[0]) + PrintParts(parts[1..])
  }

  /** The code of a tree: a space for each string, and interpolated code set off by spaces. */
  function Project(p: Piece): Text {
    match p
    case Plain(u) => [u]
    case Quoted(_, _) => [SPACE]
    case Braced(body) => [OPEN] + ProjectAll(body) + [CLOSE]
    case Literal(parts) => ProjectParts(parts) + [SPACE]
  }

  function ProjectAll(ps: seq<Piece>): Text {
    if ps == [] then [] else Project(ps[0]) + ProjectAll(ps[1..])
  }

  function ProjectPart(part: Part): Text {
    match part
    case Raw(_) => []
    case Interpolation(body) => [SPACE] + ProjectAll(body) + [SPACE]
  }

  function ProjectParts(parts: seq<Part>): Text {
    if parts == [] then [] else ProjectPart(parts[0]) + ProjectParts(parts[1..])
  }

  // ----------------------------------------------------------- the result

  ghost predicate InCodeMode(s: State) {
    Shape(s) && s.quote.None? && Top(s.stack) == Code
  }

  ghost predicate InTemplateMode(s: State) {
    Shape(s) && s.quote.None? && Top(s.stack) == Template
  }

  /** One turn, by what the text starts with. */
  lemma {:induction false} FeedOne(head: Text, tail: Text, s: State)
    requires Shape(s) && head != [] && Turn(head + tail, s).1 == |head|
    ensures Shape(Turn(head + tail, s).0)
    ensures Feed(head + tail, s) == Feed(tail, Turn(head + tail, s).0)
  {
    TurnKeepsShape(head + tail, s);
    assert Rest(head + tail, |head|) == tail;
  }

  lemma {:induction false} EmitTwice(s: State, a: Text, b: Text)
    ensures Emit(Emit(s, a), b) == Emit(s, a + b)
  {
    assert s.code + a + b == s.code + (a + b);
  }

  lemma {:induction false} EmitNothing(s: State)
    ensures Emit(s, []) == s
  {
  }

  lemma {:induction false} Joined(a: Text, b: Text, c: Text)
    ensures (a + b) + c == a + (b + c)
  {
  }

  /** A quoted string's text leaves no trace. */
  lemma {:induction false} FeedItems(items: seq<Unescaped>, tail: Text, s: State)
    requires Shape(s) && s.quote.Some? && ItemsOk(items, s.quote.value)
    ensures Feed(PrintItems(items) + tail, s) == Feed(tail, s)
  {
    if items == [] {
      assert PrintItems(items) + tail == tail;
    } else {
      var more := PrintItems(items[1..]) + tail;
      Joined(PrintItem(items[0]), PrintItems(items[1..]), tail);
      FeedOne(PrintItem(items[0]), more, s);
      FeedItems(items[1..], tail, s);
    }
  }

  lemma {:induction false} FeedQuoted(q: Unit, items: seq<Unescaped>, tail: Text, s: State)
    requires InCodeMode(s) && (q == SINGLE || q == DOUBLE) && ItemsOk(items, q)
    ensures Feed([q] + PrintItems(items) + [q] + tail, s) == Feed(tail, Emit(s, [SPACE]))
  {
    var inside := Emit(s.(quote := Some(q)), [SPACE]);
    assert [q] + PrintItems(items) + [q] + tail == [q] + (PrintItems(items) + ([q] + tail));
    assert Turn([q] + (PrintItems(items) + ([q] + tail)), s) == (inside, 1);
    FeedOne([q], PrintItems(items) + ([q] + tail), s);
    FeedItems(items, [q] + tail, inside);
    assert Turn([q] + tail, inside) == (Emit(s, [SPACE]), 1);
    FeedOne([q], tail, inside);
  }

  ghost predicate Balanced(s: State, nested: bool) {
    nested <==> s.braces != []
  }

  lemma {:induction false} FeedPiece(p: Piece, tail: Text, s: State, nested: bool)
    requires InCodeMode(s) && Balanced(s, nested) && PieceOk(p, nested)
    ensures Feed(PrintPiece(p) + tail, s) == Feed(tail, Emit(s, Project(p)))
    decreases p
  {
    match p
    case Plain(u) =>
      assert Turn([u] + tail, s) == (Emit(s, [u]), 1);
      FeedOne([u], tail, s);
    case Quoted(q, items) => FeedQuoted(q, items, tail, s);
    case Braced(body) => FeedBraced(body, tail, s);
    case Literal(parts) => FeedLiteral(parts, tail, s);
  }

  lemma {:induction false} FeedBraced(body: seq<Piece>, tail: Text, s: State)
    requires InCodeMode(s) && s.braces != [] && PiecesOk(body, true)
    ensures Feed([OPEN] + PrintPieces(body) + [CLOSE] + tail, s)
         == Feed(tail, Emit(s, [OPEN] + ProjectAll(body) + [CLOSE]))
    decreases body, 1
  {
    hide Feed, Shape, PiecesOk, PrintPieces, ProjectAll;
    var inside := Deeper(s);
    assert [OPEN] + PrintPieces(body) + [CLOSE] + tail == [OPEN] + (PrintPieces(body) + ([CLOSE] + tail));
    FeedOpenBrace(PrintPieces(body) + ([CLOSE] + tail), s);
    FeedPieces(body, [CLOSE] + tail, inside, true);
    FeedCloseBrace(ProjectAll(body), tail, s);
  }

  /** Past an opening brace. */
  function Deeper(s: State): State
    requires s.braces != []
  {
    Emit(s.(braces := Pop(s.braces) + [Top(s.braces) + 1]), [OPEN])
  }

  lemma {:induction false} FeedOpenBrace(text: Text, s: State)
    requires InCodeMode(s) && s.braces != []
    ensures InCodeMode(Deeper(s)) && Deeper(s).braces != []
    ensures Feed([OPEN] + text, s) == Feed(text, Deeper(s))
  {
    assert Turn([OPEN] + text, s) == (Deeper(s), 1);
    hide Feed;
    FeedOne([OPEN], text, s);
  }

  lemma {:induction false} FeedCloseBrace(code: Text, tail: Text, s: State)
    requires InCodeMode(s) && s.braces != [] && InCodeMode(Deeper(s))
    ensures Feed([CLOSE] + tail, Emit(Deeper(s), code)) == Feed(tail, Emit(s, [OPEN] + code + [CLOSE]))
  {
    hide Feed;
    var full, done := Emit(Deeper(s), code), Emit(s, [OPEN] + code + [CLOSE]);
    assert Pop(full.braces) + [Top(full.braces) - 1] == s.braces;
    assert full.code + [CLOSE] == done.code;
    assert Turn([CLOSE] + tail, full) == (done, 1);
    FeedOne([CLOSE], tail, full);
  }

  lemma {:induction false} FeedPieces(ps: seq<Piece>, tail: Text, s: State, nested: bool)
    requires InCodeMode(s) && Balanced(s, nested) && PiecesOk(ps, nested)
    ensures Feed(PrintPieces(ps) + tail, s) == Feed(tail, Emit(s, ProjectAll(ps)))
    decreases ps, 0
  {
    if ps == [] {
      assert PrintPieces(ps) + tail == tail;
      EmitNothing(s);
    } else {
      var more := PrintPieces(ps[1..]) + tail;
      Joined(PrintPiece(ps[0]), PrintPieces(ps[1..]), tail);
      FeedPiece(ps[0], more, s, nested);
      FeedPieces(ps[1..], tail, Emit(s, Project(ps[0])), nested);
      EmitTwice(s, Project(ps[0]), ProjectAll(ps[1..]));
    }
  }

  lemma {:induction false} FeedLiteral(parts: seq<Part>, tail: Text, s: State)
    requires InCodeMode(s) && PartsOk(parts)
    ensures Feed([BACKTICK] + PrintParts(parts) + [BACKTICK] + tail, s)
         == Feed(tail, Emit(s, ProjectParts(parts) + [SPACE]))
    decreases parts, 1
  {
    var text := PrintParts(parts) + ([BACKTICK] + tail);
    var inside := s.(stack := s.stack + [Template]);
    assert [BACKTICK] + PrintParts(parts) + [BACKTICK] + tail == [BACKTICK] + text;
    assert Turn([BACKTICK] + text, s) == (inside, 1);
    FeedOne([BACKTICK], text, s);
    FeedParts(parts, tail, inside);
    var full := Emit(inside, ProjectParts(parts));
    var done := Emit(s, ProjectParts(parts) + [SPACE]);
    assert Pop(full.stack) == s.stack;
    EmitTwice(s, ProjectParts(parts), [SPACE]);
    assert Turn([BACKTICK] + tail, full) == (done, 1);
    FeedOne([BACKTICK], tail, full);
  }

  /** A template's parts, up to its closing backtick. */
  lemma {:induction false} FeedParts(parts: seq<Part>, tail: Text, s: State)
    requires InTemplateMode(s) && PartsOk(parts)
    ensures Feed(PrintParts(parts) + ([BACKTICK] + tail), s) == Feed([BACKTICK] + tail, Emit(s, ProjectParts(parts)))
    decreases parts, 0
  {
    if parts == [] {
      assert PrintParts(parts) + ([BACKTICK] + tail) == [BACKTICK] + tail;
      EmitNothing(s);
    } else {
      var more := PrintParts(parts[1..]) + ([BACKTICK] + tail);
      Joined(PrintPart(parts[0]), PrintParts(parts[1..]), [BACKTICK] + tail);
      match parts[0] {
        case Raw(item) =>
          FeedRaw(parts, tail, s);
          EmitNothing(s);
        case Interpolation(body) =>
          FeedInterpolation(body, more, s);
      }
      FeedParts(parts[1..], tail, Emit(s, ProjectPart(parts[0])));
      EmitTwice(s, ProjectPart(parts[0]), ProjectParts(parts[1..]));
    }
  }

  lemma {:induction false} FeedRaw(parts: seq<Part>, tail: Text, s: State)
    requires InTemplateMode(s) && parts != [] && PartsOk(parts) && parts[0].Raw?
    ensures var more := PrintParts(parts[1..]) + ([BACKTICK] + tail);
            Feed(PrintPart(parts[0]) + more, s) == Feed(more, s)
  {
    var more := PrintParts(parts[1..]) + ([BACKTICK] + tail);
    var text := PrintPart(parts[0]) + more;
    if parts[0].item.Char? && parts[0].item.u == DOLLAR {
      assert parts[1..] != [] ==> parts[1..][0] == parts[1];
      NextUnit(parts[1..], tail);
      assert text[1] == more[0];
    }
    FeedOne(PrintPart(parts[0]), more, s);
  }

  lemma {:induction false} NextUnit(parts: seq<Part>, tail: Text)
    requires parts == [] || parts[0] != Raw(Char(OPEN))
    ensures var more := PrintParts(parts) + ([BACKTICK] + tail);
            more != [] && more[0] != OPEN
  {
    if parts != [] {
      assert (PrintParts(parts) + ([BACKTICK] + tail))[0] == PrintPart(parts[0])[0];
    }
  }

  lemma {:induction false} FeedInterpolation(body: seq<Piece>, tail: Text, s: State)
    requires InTemplateMode(s) && PiecesOk(body, true)
    ensures Feed([DOLLAR, OPEN] + PrintPieces(body) + [CLOSE] + tail, s)
         == Feed(tail, Emit(s, [SPACE] + ProjectAll(body) + [SPACE]))
    decreases body, 1
  {
    hide Feed, Shape, PiecesOk, PrintPieces, ProjectAll;
    var inside := Interpolated(s);
    assert [DOLLAR, OPEN] + PrintPieces(body) + [CLOSE] + tail
        == [DOLLAR, OPEN] + (PrintPieces(body) + ([CLOSE] + tail));
    FeedOpenInterpolation(PrintPieces(body) + ([CLOSE] + tail), s);
    FeedPieces(body, [CLOSE] + tail, inside, true);
    FeedCloseInterpolation(ProjectAll(body), tail, s);
  }

  /** Past the opening of an interpolation. */
  function Interpolated(s: State): State {
    Emit(s.(stack := s.stack + [Code], braces := s.braces + [0]), [SPACE])
  }

  lemma {:induction false} FeedOpenInterpolation(text: Text, s: State)
    requires InTemplateMode(s)
    ensures InCodeMode(Interpolated(s)) && Interpolated(s).braces != []
    ensures Feed([DOLLAR, OPEN] + text, s) == Feed(text, Interpolated(s))
  {
    assert Turn([DOLLAR, OPEN] + text, s) == (Interpolated(s), 2);
    TurnKeepsShape([DOLLAR, OPEN] + text, s);
    hide Feed;
    FeedOne([DOLLAR, OPEN], text, s);
  }

  lemma {:induction false} FeedCloseInterpolation(code: Text, tail: Text, s: State)
    requires InTemplateMode(s) && InCodeMode(Interpolated(s))
    ensures Feed([CLOSE] + tail, Emit(Interpolated(s), code)) == Feed(tail, Emit(s, [SPACE] + code + [SPACE]))
  {
    hide Feed;
    var full, done := Emit(Interpolated(s), code), Emit(s, [SPACE] + code + [SPACE]);
    assert Pop(full.stack) == s.stack && Pop(full.braces) == s.braces && Top(full.braces) == 0;
    assert full.code + [SPACE] == done.code;
    assert Turn([CLOSE] + tail, full) == (done, 1);
    FeedOne([CLOSE], tail, full);
  }

  /**
   * On any text of code, strings and template literals, nested to any depth, the one-pass
   * machine keeps what the recursive grammar calls code.
   */
  lemma {:induction false} StrippedIsProjection(ps: seq<Piece>)
    requires PiecesOk(ps, false)
    ensures Stripped(PrintPieces(ps)) == ProjectAll(ps)
  {
    FeedPieces(ps, [], START, false);
    assert PrintPieces(ps) + [] == PrintPieces(ps);
    FeedNothing(Emit(START, ProjectAll(ps)));
    assert [] + ProjectAll(ps) == ProjectAll(ps);
  }

  // ----------------------------------------------------- the code of a call

  /** What rawLogArguments looks at: the text taken for a call's arguments, without its strings. */
  method CodeOfCall(source: Text, open: nat) returns (code: Text)
    requires open <= |source|
    ensures exists args :: IsTaken(source[open..], args) && code == Stripped(args)
  {
    var args := ArgumentsAt(source, open);
    code := Strip(args);
  }

  /** Where the arguments' parentheses close each other, the code looked at is the arguments' code. */
  lemma {:induction false} CallIsProjected(ps: seq<Piece>, more: Text, args: Text)
    requires PiecesOk(ps, false) && ClosesHere(PrintPieces(ps), more)
    requires IsTaken(PrintPieces(ps) + [CLOSE_PAREN] + more, args)
    ensures args == PrintPieces(ps) && Stripped(args) == ProjectAll(ps)
  {
    hide IsTaken, ClosesHere, PiecesOk, Stripped;
    ArgumentsExactly(PrintPieces(ps), more, args);
    StrippedIsProjection(ps);
  }

  const PAREN_STRING: seq<Piece> := [Quoted(SINGLE, [Char(CLOSE_PAREN)]), Plain(',' as int), Plain('u' as int)]

  /**
   * By example: of the arguments ')',u the quote is all that is taken, and its code is one
   * space; the value u is never looked at. And of a call cut off before it closes, the last
   * unit is lost.
   */
  lemma {:induction false} ParenInStringEndsCall()
    ensures PiecesOk(PAREN_STRING, false)
    ensures IsTaken(PrintPieces(PAREN_STRING) + [CLOSE_PAREN], [SINGLE])
    ensures Stripped([SINGLE]) == [SPACE] && ProjectAll(PAREN_STRING) == [SPACE, ',' as int, 'u' as int]
    ensures IsTaken(['u' as int], [])
  {
    var ps := PAREN_STRING;
    PrintParenString();
    var rest := PrintPieces(ps) + [CLOSE_PAREN];
    assert rest[..1] == [SINGLE] && [SINGLE][..0] == [] && ['u' as int][..0] == [];
    assert NestingAt([SINGLE], 0) == 0 && NestingAt([SINGLE], 1) == 0 by { assert [SINGLE][..1] == [SINGLE]; }
    assert NestingAt(['u' as int], 0) == 0 && NestingAt(['u' as int], 1) == 0 by { assert ['u' as int][..1] == ['u' as int]; }
    StartShape();
    FeedOne([SINGLE], [], START);
    assert [SINGLE] + [] == [SINGLE];
    FeedNothing(Turn([SINGLE], START).0);
  }

  lemma {:induction false} PrintParenString()
    ensures PrintPieces(PAREN_STRING) == [SINGLE, CLOSE_PAREN, SINGLE, ',' as int, 'u' as int]
    ensures ProjectAll(PAREN_STRING) == [SPACE, ',' as int, 'u' as int]
    ensures PiecesOk(PAREN_STRING, false)
  {
    var ps := PAREN_STRING;
    assert ps[1..] == [Plain(',' as int), Plain('u' as int)] && ps[1..][1..] == [Plain('u' as int)];
    assert ps[1..][1..][1..] == [];
    assert PiecesOk(ps[1..][1..][1..], false);
    assert PiecesOk(ps[1..][1..], false);
    assert PiecesOk(ps[1..], false);
    assert PrintItems([Char(CLOSE_PAREN)]) == [CLOSE_PAREN];
    assert PrintPiece(ps[0]) == [SINGLE, CLOSE_PAREN, SINGLE];
    assert PrintPieces(ps[1..][1..]) == ['u' as int];
    assert PrintPieces(ps[1..]) == [',' as int, 'u' as int];
    assert ProjectAll(ps[1..][1..]) == ['u' as int];
    assert ProjectAll(ps[1..]) == [',' as int, 'u' as int];
  }
}
