/** The grouping key of SQL statements, by tokens. */
module SqlFingerprint {
  /** A chain of regular-expression replacements, and what it computes token by token. */

  import opened Common

  const MARK: Unit := '?' as int
  const OPEN: Unit := '(' as int
  const CLOSE: Unit := ')' as int

  function SkipDigits(t: Text): (r: Text)
    ensures |r| <= |t|
    ensures r != [] ==> !IsDigit(r[0])
  {
    if t != [] && IsDigit(t[0]) then SkipDigits(t[1..]) else t
  }

  // ------------------------------------------------- the four replacements

  /** replace(/\s+/g, ' ') */
  function Collapse(t: Text): Text
    decreases |t|
  {
    if t == [] then []
    else if IsSpace(t[0]) then [SPACE] + Collapse(SkipSpaces(t[1..]))
    else [t[0]] + Collapse(t[1..])
  }

  predicate IsPlaceholder(t: Text) {
    |t| >= 2 && t[0] == DOLLAR && IsDigit(t[1])
  }

  /** Behind the opening parenthesis: placeholders and commas, up to the closing one. */
  function MatchItems(t: Text, several: bool): (rest: Option<Text>)
    ensures rest.Some? ==> |rest.value| < |t|
    decreases |t|
  {
    if !IsPlaceholder(t) then None
    else
      var r := SkipSpaces(SkipDigits(t[1..]));
      if r == [] then None
      else if r[0] == COMMA then MatchItems(SkipSpaces(r[1..]), true)
      else if r[0] == CLOSE && several then Some(r[1..])
      else None
  }

  /** What is left behind a match of the list pattern, at the start of the text. */
  function MatchList(t: Text): (rest: Option<Text>)
    ensures rest.Some? ==> |rest.value| < |t|
  {
    if t == [] || t[0] != OPEN then None else MatchItems(SkipSpaces(t[1..]), false)
  }

  /** replace(/\(\s*(?:\$\d+\s*,\s*)+\$\d+\s*\)/g, '(?)') */
  function ReplaceLists(t: Text): Text
    decreases |t|
  {
    if t == [] then []
    else if MatchList(t).Some? then [OPEN, MARK, CLOSE] + ReplaceLists(MatchList(t).value)
    else [t[0]] + ReplaceLists(t[1..])
  }

  /** replace(/\$\d+/g, '?') */
  function ReplacePlaceholders(t: Text): Text
    decreases |t|
  {
    if t == [] then []
    else if IsPlaceholder(t) then [MARK] + ReplacePlaceholders(SkipDigits(t[1..]))
    else [t[0]] + ReplacePlaceholders(t[1..])
  }

  function Fingerprint(sql: Text): Text {
    Trim(ReplacePlaceholders(ReplaceLists(Collapse(sql))))
  }

  // -------------------------------------------- what they compute, by token

  datatype Token = Gap | Bound | Plain(u: Unit)

  /** Whitespace runs and numbered placeholders, each as one token; all else as it is. */
  function Lex(t: Text): seq<Token>
    decreases |t|
  {
    if t == [] then []
    else if IsSpace(t[0]) then [Gap] + Lex(SkipSpaces(t[1..]))
    else if IsPlaceholder(t) then [Bound] + Lex(SkipDigits(t[1..]))
    else [Plain(t[0])] + Lex(t[1..])
  }

  function SkipGaps(ts: seq<Token>): (r: seq<Token>)
    ensures |r| <= |ts|
  {
    if ts != [] && ts[0] == Gap then SkipGaps(ts[1..]) else ts
  }

  function TokenItems(ts: seq<Token>, several: bool): (rest: Option<seq<Token>>)
    ensures rest.Some? ==> |rest.value| < |ts|
    decreases |ts|
  {
    if ts == [] || ts[0] != Bound then None
    else
      var r := SkipGaps(ts[1..]);
      if r == [] then None
      else if r[0] == Plain(COMMA) then TokenItems(SkipGaps(r[1..]), true)
      else if r[0] == Plain(CLOSE) && several then Some(r[1..])
      else None
  }

  function TokenList(ts: seq<Token>): (rest: Option<seq<Token>>)
    ensures rest.Some? ==> |rest.value| < |ts|
  {
    if ts == [] || ts[0] != Plain(OPEN) then None else TokenItems(SkipGaps(ts[1..]), false)
  }

  /** Every list of two placeholders or more becomes a list of one. */
  function Shorten(ts: seq<Token>): seq<Token>
    decreases |ts|
  {
    if ts == [] then []
    else if TokenList(ts).Some? then [Plain(OPEN), Bound, Plain(CLOSE)] + Shorten(TokenList(ts).value)
    else [ts[0]] + Shorten(ts[1..])
  }

  function TrimGapsEnd(ts: seq<Token>): seq<Token> {
    if ts != [] && ts[|ts| - 1] == Gap then TrimGapsEnd(ts[..|ts| - 1]) else ts
  }

  function TrimGaps(ts: seq<Token>): seq<Token> {
    TrimGapsEnd(SkipGaps(ts))
  }

  /** What two statements of one group have in common. */
  function GroupOf(sql: Text): seq<Token> {
    TrimGaps(Shorten(Lex(sql)))
  }

  function RenderToken(t: Token): Unit {
    match t
    case Gap => SPACE
    case Bound => MARK
    case Plain(u) => u
  }

  function Render(ts: seq<Token>): (t: Text)
    ensures |t| == |ts|
    ensures forall i | 0 <= i < |ts| :: t[i] == RenderToken(ts[i])
  {
    seq(|ts|, i requires 0 <= i < |ts| => RenderToken(ts[i]))
  }

  // ----------------------------------------------------- regular = by token

  /** Whitespace is single spaces, none beside another. */
  ghost predicate Collapsed(t: Text) {
    && (forall i | 0 <= i < |t| && IsSpace(t[i]) :: t[i] == SPACE)
    && (forall i | 0 < i < |t| && IsSpace(t[i]) :: !IsSpace(t[i - 1]))
  }

  lemma {:induction false} CollapseCollapses(t: Text)
    ensures Collapsed(Collapse(t))
    ensures t != [] && !IsSpace(t[0]) ==> Collapse(t) != [] && Collapse(t)[0] == t[0]
    decreases |t|
  {
    if t != [] {
      CollapseCollapses(if IsSpace(t[0]) then SkipSpaces(t[1..]) else t[1..]);
    }
  }

  lemma {:induction false} SkipsDigitsAlike(t: Text)
    ensures SkipDigits(Collapse(t)) == Collapse(SkipDigits(t))
    decreases |t|
  {
    if t != [] && IsDigit(t[0]) {
      assert !IsSpace(t[0]);
      assert Collapse(t)[1..] == Collapse(t[1..]);
      SkipsDigitsAlike(t[1..]);
    }
  }

  /** Collapsing whitespace changes no token. */
  lemma {:induction false} CollapseKeepsTokens(t: Text)
    ensures Lex(Collapse(t)) == Lex(t)
    decreases |t|
  {
    if t == [] {
    } else if IsSpace(t[0]) {
      var rest := SkipSpaces(t[1..]);
      CollapseKeepsTokens(rest);
      CollapseCollapses(rest);
      assert Collapse(t)[1..] == Collapse(rest);
      assert SkipSpaces(Collapse(rest)) == Collapse(rest);
    } else {
      assert Collapse(t)[1..] == Collapse(t[1..]);
      assert IsPlaceholder(Collapse(t)) == IsPlaceholder(t);
      if IsPlaceholder(t) {
        SkipsDigitsAlike(t[1..]);
        CollapseKeepsTokens(SkipDigits(t[1..]));
      } else {
        CollapseKeepsTokens(t[1..]);
      }
    }
  }

  lemma {:induction false} SkipsGapsAlike(t: Text)
    ensures Lex(SkipSpaces(t)) == SkipGaps(Lex(t))
    decreases |t|
  {
    if t != [] && IsSpace(t[0]) {
      assert SkipSpaces(t) == SkipSpaces(t[1..]);
      StartsWithoutGap(SkipSpaces(t[1..]));
    } else {
      StartsWithoutGap(t);
    }
  }

  lemma {:induction false} StartsWithoutGap(t: Text)
    requires t == [] || !IsSpace(t[0])
    ensures Lex(t) == [] || Lex(t)[0] != Gap
    ensures SkipGaps(Lex(t)) == Lex(t)
  {
  }

  lemma {:induction false} LexHead(t: Text)
    requires t != [] && !IsSpace(t[0]) && !IsPlaceholder(t)
    ensures Lex(t) == [Plain(t[0])] + Lex(t[1..])
    ensures Lex(t)[1..] == Lex(t[1..])
  {
  }

  ghost predicate SameRest(text: Option<Text>, tokens: Option<seq<Token>>) {
    if text.None? then tokens.None? else tokens == Some(Lex(text.value))
  }

  lemma {:induction false} MatchesItemsAlike(t: Text, several: bool)
    ensures SameRest(MatchItems(t, several), TokenItems(Lex(t), several))
    decreases |t|
  {
    if IsPlaceholder(t) {
      var digits := SkipDigits(t[1..]);
      var r := SkipSpaces(digits);
      assert Lex(t) == [Bound] + Lex(digits) && Lex(t)[1..] == Lex(digits);
      SkipsGapsAlike(digits);
      if r != [] && r[0] == COMMA {
        LexHead(r);
        SkipsGapsAlike(r[1..]);
        MatchesItemsAlike(SkipSpaces(r[1..]), true);
      } else if r != [] && r[0] == CLOSE {
        LexHead(r);
      } else if r != [] {
        LexStart(r);
      }
    } else {
      LexStart(t);
    }
  }

  lemma {:induction false} LexStart(t: Text)
    ensures t == [] <==> Lex(t) == []
    ensures t != [] ==> Lex(t)[0] == (if IsSpace(t[0]) then Gap else if IsPlaceholder(t) then Bound else Plain(t[0]))
  {
  }

  lemma {:induction false} MatchesListsAlike(t: Text)
    ensures SameRest(MatchList(t), TokenList(Lex(t)))
  {
    LexStart(t);
    if t != [] && t[0] == OPEN {
      LexHead(t);
      SkipsGapsAlike(t[1..]);
      MatchesItemsAlike(SkipSpaces(t[1..]), false);
    }
  }

  /** What comes behind a placeholder in a list. */
  function BehindPlaceholder(t: Text): Text
    requires t != []
  {
    SkipSpaces(SkipDigits(t[1..]))
  }

  lemma {:induction false} DropTwice(t: Text, i: nat, j: nat)
    requires i + j <= |t|
    ensures t[i..][j..] == t[i + j..]
  {
  }

  lemma {:induction false} BehindIsSuffix(t: Text) returns (k: nat)
    requires t != []
    ensures 1 <= k <= |t| && BehindPlaceholder(t) == t[k..]
  {
    hide SkipSpaces, SkipDigits;
    var a := SkipDigitsSuffix(t[1..]);
    DropTwice(t, 1, a);
    var b := SkipSpacesSuffix(t[1 + a..]);
    DropTwice(t, 1 + a, b);
    k := 1 + a + b;
  }

  lemma {:induction false} MatchItemsStep(t: Text, several: bool)
    requires MatchItems(t, several).Some?
    ensures t != [] && BehindPlaceholder(t) != []
    ensures MatchItems(t, several)
         == var r := BehindPlaceholder(t); if r[0] == COMMA then MatchItems(SkipSpaces(r[1..]), true) else Some(r[1..])
  {
  }

  lemma {:induction false} MatchItemsSuffix(t: Text, several: bool) returns (n: nat)
    requires MatchItems(t, several).Some?
    ensures n <= |t| && MatchItems(t, several).value == t[n..]
    decreases |t|
  {
    hide *;
    MatchItemsStep(t, several);
    var k := BehindIsSuffix(t);
    var r := t[k..];
    assert r[1..] == t[k + 1..];
    if r[0] == COMMA {
      var c := SkipSpacesSuffix(r[1..]);
      n := MatchItemsSuffix(r[1..][c..], true);
      assert r[1..][c..][n..] == t[k + 1 + c + n..];
      n := k + 1 + c + n;
    } else {
      n := k + 1;
    }
  }

  lemma {:induction false} SkipDigitsSuffix(t: Text) returns (n: nat)
    ensures n <= |t| && SkipDigits(t) == t[n..]
  {
    n := 0;
    if t != [] && IsDigit(t[0]) {
      n := SkipDigitsSuffix(t[1..]);
      n := n + 1;
    }
  }

  lemma {:induction false} SkipSpacesSuffix(t: Text) returns (n: nat)
    ensures n <= |t| && SkipSpaces(t) == t[n..]
  {
    n := 0;
    if t != [] && IsSpace(t[0]) {
      n := SkipSpacesSuffix(t[1..]);
      n := n + 1;
    }
  }

  lemma {:induction false} CollapsedSuffix(t: Text, n: nat)
    requires Collapsed(t) && n <= |t|
    ensures Collapsed(t[n..])
  {
  }

  /** Digits start no list. */
  lemma {:induction false} ListsAfterDigits(t: Text)
    ensures SkipDigits(ReplaceLists(t)) == ReplaceLists(SkipDigits(t))
    decreases |t|
  {
    if t != [] && IsDigit(t[0]) {
      assert ReplaceLists(t)[1..] == ReplaceLists(t[1..]);
      ListsAfterDigits(t[1..]);
    }
  }

  lemma {:induction false} ListsStart(t: Text)
    ensures t == [] <==> ReplaceLists(t) == []
    ensures t != [] ==> ReplaceLists(t)[0] == t[0]
  {
  }

  ghost function Replaced(t: Text): Text {
    ReplacePlaceholders(ReplaceLists(t))
  }

  lemma {:induction false} ReplacedList(t: Text)
    requires MatchList(t).Some?
    ensures Replaced(t) == [OPEN, MARK, CLOSE] + Replaced(MatchList(t).value)
  {
    var rest := ReplaceLists(MatchList(t).value);
    assert ReplaceLists(t) == [OPEN, MARK, CLOSE] + rest by {
      hide ReplacePlaceholders, MatchList;
    }
    hide ReplaceLists, ReplacePlaceholders, MatchList;
    MarkPasses(rest);
  }

  lemma {:induction false} MarkPasses(rest: Text)
    ensures ReplacePlaceholders([OPEN, MARK, CLOSE] + rest) == [OPEN, MARK, CLOSE] + ReplacePlaceholders(rest)
  {
    hide ReplacePlaceholders;
    var one := [CLOSE] + rest;
    var two := [MARK] + one;
    assert [OPEN, MARK, CLOSE] + rest == [OPEN] + two;
    PlaceholdersPass(CLOSE, rest);
    PlaceholdersPass(MARK, one);
    PlaceholdersPass(OPEN, two);
  }

  lemma {:induction false} PlaceholdersPass(u: Unit, t: Text)
    requires u != DOLLAR || t == [] || !IsDigit(t[0])
    ensures ReplacePlaceholders([u] + t) == [u] + ReplacePlaceholders(t)
  {
    assert ([u] + t)[1..] == t;
  }

  lemma {:induction false} ReplacedPlaceholder(t: Text)
    requires IsPlaceholder(t)
    ensures Replaced(t) == [MARK] + Replaced(SkipDigits(t[1..]))
  {
    var r := ReplaceLists(t);
    assert r == [DOLLAR] + ReplaceLists(t[1..]);
    ListsStart(t[1..]);
    assert r[1..] == ReplaceLists(t[1..]);
    ListsAfterDigits(t[1..]);
  }

  lemma {:induction false} ReplacedUnit(t: Text)
    requires t != [] && MatchList(t).None? && !IsPlaceholder(t)
    ensures Replaced(t) == [t[0]] + Replaced(t[1..])
  {
    ListsStart(t[1..]);
    PlaceholdersPass(t[0], ReplaceLists(t[1..]));
  }

  /** On collapsed text, replacing is shortening the tokens' lists. */
  lemma {:induction false} ReplacedIsShortened(t: Text)
    requires Collapsed(t)
    ensures Replaced(t) == Render(Shorten(Lex(t)))
    decreases |t|
  {
    hide Replaced, Lex, Shorten, MatchList, TokenList, Collapsed;
    MatchesListsAlike(t);
    LexStart(t);
    if t == [] {
      NothingReplaced();
    } else if MatchList(t).Some? {
      var n := MatchListSuffix(t);
      CollapsedSuffix(t, n);
      ReplacedIsShortened(MatchList(t).value);
      ReplacedList(t);
      ShortenList(Lex(t));
    } else {
      ShortenToken(Lex(t));
      ReplacedOne(t);
    }
  }

  lemma {:induction false} NothingReplaced()
    ensures Replaced([]) == Render(Shorten(Lex([])))
  {
  }

  lemma {:induction false} MatchListSuffix(t: Text) returns (n: nat)
    requires MatchList(t).Some?
    ensures n <= |t| && MatchList(t).value == t[n..]
  {
    var a := SkipSpacesSuffix(t[1..]);
    var b := MatchItemsSuffix(SkipSpaces(t[1..]), false);
    n := 1 + a + b;
  }

  lemma {:induction false} ShortenList(ts: seq<Token>)
    requires TokenList(ts).Some?
    ensures Render(Shorten(ts)) == [OPEN, MARK, CLOSE] + Render(Shorten(TokenList(ts).value))
  {
  }

  lemma {:induction false} ShortenToken(ts: seq<Token>)
    requires ts != [] && TokenList(ts).None?
    ensures Render(Shorten(ts)) == [RenderToken(ts[0])] + Render(Shorten(ts[1..]))
  {
  }

  lemma {:induction false} ReplacedOne(t: Text)
    requires Collapsed(t) && t != [] && MatchList(t).None?
    ensures Lex(t) != [] && Replaced(t) == [RenderToken(Lex(t)[0])] + Render(Shorten(Lex(t)[1..]))
    decreases |t|, 0
  {
    hide Replaced, Shorten;
    LexStart(t);
    if IsPlaceholder(t) {
      ReplacedPlaceholder(t);
      var n := SkipDigitsSuffix(t[1..]);
      assert SkipDigits(t[1..]) == t[1 + n..];
      CollapsedSuffix(t, 1 + n);
      assert Lex(t)[1..] == Lex(SkipDigits(t[1..]));
      ReplacedIsShortened(SkipDigits(t[1..]));
    } else {
      ReplacedUnit(t);
      CollapsedSuffix(t, 1);
      assert IsSpace(t[0]) ==> SkipSpaces(t[1..]) == t[1..];
      assert Lex(t)[1..] == Lex(t[1..]);
      ReplacedIsShortened(t[1..]);
    }
  }

  // ------------------------------------------------------------------ trim

  /** Plain tokens are no whitespace: a run of it is a gap. */
  ghost predicate NoPlainSpace(ts: seq<Token>) {
    forall i | 0 <= i < |ts| && ts[i].Plain? :: !IsSpace(ts[i].u)
  }

  lemma {:induction false} LexNoPlainSpace(t: Text)
    ensures NoPlainSpace(Lex(t))
    decreases |t|
  {
    if t != [] {
      if IsSpace(t[0]) {
        LexNoPlainSpace(SkipSpaces(t[1..]));
      } else if IsPlaceholder(t) {
        LexNoPlainSpace(SkipDigits(t[1..]));
      } else {
        LexNoPlainSpace(t[1..]);
      }
    }
  }

  lemma {:induction false} TokenItemsSuffix(ts: seq<Token>, several: bool) returns (n: nat)
    requires TokenItems(ts, several).Some?
    ensures n <= |ts| && TokenItems(ts, several).value == ts[n..]
    decreases |ts|
  {
    var a := SkipGapsSuffix(ts[1..]);
    var r := SkipGaps(ts[1..]);
    assert r == ts[1 + a..];
    if r[0] == Plain(COMMA) {
      var b := SkipGapsSuffix(r[1..]);
      assert SkipGaps(r[1..]) == ts[2 + a + b..];
      n := TokenItemsSuffix(SkipGaps(r[1..]), true);
      n := n + 2 + a + b;
    } else {
      n := 2 + a;
    }
  }

  lemma {:induction false} SkipGapsSuffix(ts: seq<Token>) returns (n: nat)
    ensures n <= |ts| && SkipGaps(ts) == ts[n..]
  {
    n := 0;
    if ts != [] && ts[0] == Gap {
      n := SkipGapsSuffix(ts[1..]);
      n := n + 1;
    }
  }

  lemma {:induction false} TokenListSuffix(ts: seq<Token>) returns (n: nat)
    requires TokenList(ts).Some?
    ensures 0 < n <= |ts| && TokenList(ts).value == ts[n..]
  {
    var a := SkipGapsSuffix(ts[1..]);
    var b := TokenItemsSuffix(SkipGaps(ts[1..]), false);
    n := 1 + a + b;
  }

  ghost predicate NoMark(ts: seq<Token>) {
    Plain(MARK) !in ts
  }

  lemma {:induction false} ShortenKeeps(ts: seq<Token>)
    requires NoPlainSpace(ts)
    ensures NoPlainSpace(Shorten(ts))
    ensures NoMark(ts) ==> NoMark(Shorten(ts))
    decreases |ts|
  {
    if ts != [] {
      if TokenList(ts).Some? {
        var n := TokenListSuffix(ts);
        ShortenKeeps(ts[n..]);
      } else {
        ShortenKeeps(ts[1..]);
      }
    }
  }

  lemma {:induction false} TrimStartAlike(ts: seq<Token>)
    requires NoPlainSpace(ts)
    ensures SkipSpaces(Render(ts)) == Render(SkipGaps(ts))
    ensures NoPlainSpace(SkipGaps(ts))
  {
    if ts != [] && ts[0] == Gap {
      assert Render(ts)[1..] == Render(ts[1..]);
      TrimStartAlike(ts[1..]);
    }
  }

  lemma {:induction false} TrimEndAlike(ts: seq<Token>)
    requires NoPlainSpace(ts)
    ensures TrimEnd(Render(ts)) == Render(TrimGapsEnd(ts))
  {
    if ts != [] && ts[|ts| - 1] == Gap {
      assert Render(ts)[..|ts| - 1] == Render(ts[..|ts| - 1]);
      TrimEndAlike(ts[..|ts| - 1]);
    }
  }

  /** The replacements compute the group's tokens, whatever the statement. */
  lemma {:induction false} FingerprintIsGroup(sql: Text)
    ensures Fingerprint(sql) == Render(GroupOf(sql))
  {
    hide Collapse, Lex, Shorten, Collapsed, ReplaceLists, ReplacePlaceholders;
    CollapseCollapses(sql);
    CollapseKeepsTokens(sql);
    ReplacedIsShortened(Collapse(sql));
    LexNoPlainSpace(sql);
    ShortenKeeps(Lex(sql));
    TrimStartAlike(Shorten(Lex(sql)));
    TrimEndAlike(SkipGaps(Shorten(Lex(sql))));
  }

  // --------------------------------------------------------------- results

  lemma {:induction false} TrimGapsIn(ts: seq<Token>, t: Token)
    requires t in TrimGaps(ts)
    ensures t in ts
  {
    var n := SkipGapsSuffix(ts);
    TrimGapsEndIn(SkipGaps(ts), t);
  }

  lemma {:induction false} TrimGapsEndIn(ts: seq<Token>, t: Token)
    requires t in TrimGapsEnd(ts)
    ensures t in ts
  {
    if ts != [] && ts[|ts| - 1] == Gap {
      TrimGapsEndIn(ts[..|ts| - 1], t);
    }
  }

  lemma {:induction false} LexNoMark(t: Text)
    requires MARK !in t
    ensures NoMark(Lex(t))
    decreases |t|
  {
    if t != [] {
      assert t[0] in t;
      if IsSpace(t[0]) {
        var n := SkipSpacesSuffix(t[1..]);
        LexNoMark(SkipSpaces(t[1..]));
      } else if IsPlaceholder(t) {
        var n := SkipDigitsSuffix(t[1..]);
        LexNoMark(SkipDigits(t[1..]));
      } else {
        LexNoMark(t[1..]);
      }
    }
  }

  /** A literal question mark renders as a placeholder does: as one token they are merged. */
  function MergedToken(t: Token): Token {
    if t == Plain(MARK) then Bound else t
  }

  function Merged(ts: seq<Token>): (r: seq<Token>)
    ensures |r| == |ts|
    ensures forall i | 0 <= i < |ts| :: r[i] == MergedToken(ts[i])
  {
    seq(|ts|, i requires 0 <= i < |ts| => MergedToken(ts[i]))
  }

  lemma {:induction false} RenderDecides(a: seq<Token>, b: seq<Token>)
    requires NoPlainSpace(a) && NoPlainSpace(b)
    ensures Render(a) == Render(b) <==> Merged(a) == Merged(b)
  {
    if Render(a) == Render(b) {
      forall i | 0 <= i < |a| ensures Merged(a)[i] == Merged(b)[i] {
        assert Render(a)[i] == Render(b)[i];
      }
    }
    if Merged(a) == Merged(b) {
      forall i | 0 <= i < |a| ensures Render(a)[i] == Render(b)[i] {
        assert Merged(a)[i] == Merged(b)[i];
      }
    }
  }

  lemma {:induction false} GroupNoPlainSpace(sql: Text)
    ensures NoPlainSpace(GroupOf(sql))
  {
    LexNoPlainSpace(sql);
    ShortenKeeps(Lex(sql));
    forall i | 0 <= i < |GroupOf(sql)| && GroupOf(sql)[i].Plain? ensures !IsSpace(GroupOf(sql)[i].u) {
      TrimGapsIn(Shorten(Lex(sql)), GroupOf(sql)[i]);
    }
  }

  /**
   * Two statements share a fingerprint exactly when they differ only in whitespace runs,
   * placeholder numbers, the length of placeholder lists, outer whitespace, and where one has
   * a question mark and the other a placeholder.
   */
  lemma {:induction false} GroupedExactly(a: Text, b: Text)
    ensures Fingerprint(a) == Fingerprint(b) <==> Merged(GroupOf(a)) == Merged(GroupOf(b))
  {
    hide GroupOf, Fingerprint;
    FingerprintIsGroup(a);
    FingerprintIsGroup(b);
    GroupNoPlainSpace(a);
    GroupNoPlainSpace(b);
    RenderDecides(GroupOf(a), GroupOf(b));
  }

  lemma {:induction false} GroupHasNoMark(sql: Text)
    requires MARK !in sql
    ensures Merged(GroupOf(sql)) == GroupOf(sql)
  {
    LexNoMark(sql);
    LexNoPlainSpace(sql);
    ShortenKeeps(Lex(sql));
    if Plain(MARK) in GroupOf(sql) {
      TrimGapsIn(Shorten(Lex(sql)), Plain(MARK));
    }
    hide GroupOf;
    forall i | 0 <= i < |GroupOf(sql)| ensures Merged(GroupOf(sql))[i] == GroupOf(sql)[i] {
      assert GroupOf(sql)[i] in GroupOf(sql);
    }
  }

  /** So without literal question marks the group is all there is to it. */
  lemma {:induction false} GroupedWithoutMarks(a: Text, b: Text)
    requires MARK !in a && MARK !in b
    ensures Fingerprint(a) == Fingerprint(b) <==> GroupOf(a) == GroupOf(b)
  {
    GroupedExactly(a, b);
    GroupHasNoMark(a);
    GroupHasNoMark(b);
  }

  lemma {:induction false} GroupOfOne(sql: Text, t: Token)
    requires Lex(sql) == [t] && t != Gap && t != Plain(OPEN)
    ensures GroupOf(sql) == [t]
  {
    assert TokenList([t]).None? && [t][1..] == [];
    assert Shorten([]) == [];
    assert Shorten([t]) == [t] + Shorten([]);
  }

  const QUESTION: Text := [MARK]
  const FIRST: Text := [DOLLAR, '1' as int]

  /** By example: the operator ? and the placeholder $1 make two statements one. */
  lemma {:induction false} MarkLooksBound()
    ensures Fingerprint(QUESTION) == Fingerprint(FIRST) && GroupOf(QUESTION) != GroupOf(FIRST)
  {
    assert QUESTION[1..] == [] && FIRST[1..] == ['1' as int] && ['1' as int][1..] == [];
    NothingLexed();
    assert Lex(QUESTION) == [Plain(MARK)] && Lex(FIRST) == [Bound];
    GroupOfOne(QUESTION, Plain(MARK));
    GroupOfOne(FIRST, Bound);
    GroupedExactly(QUESTION, FIRST);
    assert Merged([Plain(MARK)]) == Merged([Bound]);
  }

  ghost predicate AllSpaces(t: Text) {
    t != [] && forall i | 0 <= i < |t| :: IsSpace(t[i])
  }

  lemma {:induction false} SkipAllSpaces(w: Text, y: Text)
    requires forall i | 0 <= i < |w| :: IsSpace(w[i])
    ensures SkipSpaces(w + y) == SkipSpaces(y)
  {
    if w == [] {
      assert w + y == y;
    } else {
      assert (w + y)[1..] == w[1..] + y;
      SkipAllSpaces(w[1..], y);
    }
  }

  lemma {:induction false} SkipAllDigits(d: Text, y: Text)
    requires AllDigits(d)
    ensures SkipDigits(d + y) == SkipDigits(y)
  {
    if d == [] {
      assert d + y == y;
    } else {
      assert (d + y)[1..] == d[1..] + y;
      SkipAllDigits(d[1..], y);
    }
  }

  /** Skipping stops inside x, or runs through it. */
  lemma {:induction false} SkipSpacesOver(x: Text, y: Text)
    ensures SkipSpaces(x + y) == if SkipSpaces(x) == [] then SkipSpaces(y) else SkipSpaces(x) + y
  {
    if x == [] {
      assert x + y == y;
    } else {
      assert (x + y)[1..] == x[1..] + y;
      if IsSpace(x[0]) {
        SkipSpacesOver(x[1..], y);
      }
    }
  }

  lemma {:induction false} SkipDigitsOver(x: Text, y: Text)
    requires y == [] || !IsDigit(y[0])
    ensures SkipDigits(x + y) == SkipDigits(x) + y
  {
    if x == [] {
      assert x + y == y;
    } else {
      assert (x + y)[1..] == x[1..] + y;
      if IsDigit(x[0]) {
        SkipDigitsOver(x[1..], y);
      }
    }
  }

  /** Texts that lex alike, whatever stretch of whitespace comes before them. */
  ghost predicate LexAlike(a: Text, b: Text) {
    && a != [] && b != [] && !IsDigit(a[0]) && !IsDigit(b[0])
    && Lex(a) == Lex(b) && Lex(SkipSpaces(a)) == Lex(SkipSpaces(b))
  }

  /** What comes before plays no part. */
  lemma {:induction false} SamePrefix(x: Text, a: Text, b: Text)
    requires LexAlike(a, b)
    ensures Lex(x + a) == Lex(x + b)
    decreases |x|
  {
    if x == [] {
      assert x + a == a && x + b == b;
    } else {
      assert (x + a)[1..] == x[1..] + a && (x + b)[1..] == x[1..] + b;
      hide LexAlike;
      if IsSpace(x[0]) {
        SamePrefixSpaces(x, a, b);
      } else if IsPlaceholder(x) {
        SamePrefixDigits(x, a, b);
      } else {
        SamePrefix(x[1..], a, b);
        NoPlaceholder(x, a);
        NoPlaceholder(x, b);
      }
    }
  }

  lemma {:induction false} NoPlaceholder(x: Text, a: Text)
    requires x != [] && !IsPlaceholder(x) && a != [] && !IsDigit(a[0])
    ensures !IsPlaceholder(x + a)
  {
  }

  lemma {:induction false} SamePrefixSpaces(x: Text, a: Text, b: Text)
    requires LexAlike(a, b) && x != [] && IsSpace(x[0])
    ensures Lex(x + a) == Lex(x + b)
    decreases |x|, 0
  {
    assert (x + a)[1..] == x[1..] + a && (x + b)[1..] == x[1..] + b;
    SkipSpacesOver(x[1..], a);
    SkipSpacesOver(x[1..], b);
    if SkipSpaces(x[1..]) != [] {
      SamePrefix(SkipSpaces(x[1..]), a, b);
    }
  }

  lemma {:induction false} SamePrefixDigits(x: Text, a: Text, b: Text)
    requires LexAlike(a, b) && IsPlaceholder(x)
    ensures Lex(x + a) == Lex(x + b)
    decreases |x|, 0
  {
    assert (x + a)[1..] == x[1..] + a && (x + b)[1..] == x[1..] + b;
    SkipDigitsOver(x[1..], a);
    SkipDigitsOver(x[1..], b);
    SamePrefix(SkipDigits(x[1..]), a, b);
  }

  lemma {:induction false} SameFingerprint(a: Text, b: Text)
    requires Shorten(Lex(a)) == Shorten(Lex(b))
    ensures Fingerprint(a) == Fingerprint(b)
  {
    FingerprintIsGroup(a);
    FingerprintIsGroup(b);
  }

  /** The length of a whitespace run does not matter, anywhere in any statement. */
  lemma {:induction false} SpacesDoNotMatter(x: Text, v: Text, w: Text, y: Text)
    requires AllSpaces(v) && AllSpaces(w)
    ensures Fingerprint(x + v + y) == Fingerprint(x + w + y)
  {
    hide Lex, Shorten, Fingerprint, SkipSpaces;
    LexSpaces(v, y);
    LexSpaces(w, y);
    SamePrefix(x, v + y, w + y);
    assert x + v + y == x + (v + y) && x + w + y == x + (w + y);
    SameFingerprint(x + v + y, x + w + y);
  }

  lemma {:induction false} LexSpaces(w: Text, y: Text)
    requires AllSpaces(w)
    ensures Lex(w + y) == [Gap] + Lex(SkipSpaces(y)) && SkipSpaces(w + y) == SkipSpaces(y)
    ensures w + y != [] && !IsDigit((w + y)[0])
  {
    assert (w + y)[1..] == w[1..] + y;
    SkipAllSpaces(w[1..], y);
    SkipAllSpaces(w, y);
  }

  lemma {:induction false} LexNumbered(d: Text, y: Text)
    requires d != [] && AllDigits(d)
    ensures Lex([DOLLAR] + d + y) == [Bound] + Lex(SkipDigits(y))
    ensures SkipSpaces([DOLLAR] + d + y) == [DOLLAR] + d + y
  {
    assert ([DOLLAR] + d + y)[1..] == d + y;
    SkipAllDigits(d, y);
  }

  /** The number of a placeholder does not matter, anywhere in any statement. */
  lemma {:induction false} NumbersDoNotMatter(x: Text, d: Text, e: Text, y: Text)
    requires d != [] && AllDigits(d) && e != [] && AllDigits(e)
    ensures Fingerprint(x + ([DOLLAR] + d + y)) == Fingerprint(x + ([DOLLAR] + e + y))
  {
    LexNumbered(d, y);
    LexNumbered(e, y);
    SamePrefix(x, [DOLLAR] + d + y, [DOLLAR] + e + y);
    SameFingerprint(x + ([DOLLAR] + d + y), x + ([DOLLAR] + e + y));
  }

  /** A text that is, whole, a list of two placeholders or more. */
  ghost predicate IsList(l: Text) {
    MatchList(l) == Some([])
  }

  function FirstToken(t: Text): Token
    requires t != []
  {
    if IsSpace(t[0]) then Gap else if IsPlaceholder(t) then Bound else Plain(t[0])
  }

  function AfterToken(t: Text): (r: Text)
    requires t != []
    ensures |r| < |t|
  {
    if IsSpace(t[0]) then SkipSpaces(t[1..]) else if IsPlaceholder(t) then SkipDigits(t[1..]) else t[1..]
  }

  lemma {:induction false} LexStep(t: Text)
    requires t != []
    ensures Lex(t) == [FirstToken(t)] + Lex(AfterToken(t))
  {
  }

  lemma {:induction false} AfterTokenOver(x: Text, y: Text)
    requires x != [] && y != [] && !IsSpace(y[0]) && !IsDigit(y[0])
    ensures FirstToken(x + y) == FirstToken(x) && AfterToken(x + y) == AfterToken(x) + y
  {
    assert (x + y)[1..] == x[1..] + y && (x + y)[0] == x[0];
    SkipSpacesOver(x[1..], y);
    SkipDigitsOver(x[1..], y);
    assert SkipSpaces(y) == y == [] + y;
    if !IsPlaceholder(x) {
      NoPlaceholder(x, y);
    }
    hide SkipSpaces, SkipDigits, IsSpace;
  }

  /** A parenthesis belongs to no token begun before it. */
  lemma {:induction false} LexSplits(x: Text, y: Text)
    requires y != [] && !IsSpace(y[0]) && !IsDigit(y[0])
    ensures Lex(x + y) == Lex(x) + Lex(y)
    decreases |x|
  {
    NothingLexed();
    hide Lex, AfterToken, FirstToken;
    if x == [] {
      assert x + y == y;
    } else {
      LexStep(x);
      LexStep(x + y);
      AfterTokenOver(x, y);
      LexSplits(AfterToken(x), y);
    }
  }

  lemma {:induction false} NothingLexed()
    ensures Lex([]) == []
  {
  }

  lemma {:induction false} SkipGapsOver(p: seq<Token>, s: seq<Token>)
    requires s != [] && s[0] != Gap
    ensures SkipGaps(p + s) == SkipGaps(p) + s
  {
    if p == [] {
      assert p + s == s;
    } else {
      assert (p + s)[1..] == p[1..] + s;
      if p[0] == Gap {
        SkipGapsOver(p[1..], s);
      }
    }
  }

  /** No list runs into an opening parenthesis. */
  lemma {:induction false} ItemsStopAtOpen(p: seq<Token>, s: seq<Token>, several: bool)
    requires s != [] && s[0] == Plain(OPEN)
    ensures TokenItems(p + s, several)
         == (if TokenItems(p, several).None? then None else Some(TokenItems(p, several).value + s))
    decreases |p|
  {
    if p == [] {
      assert p + s == s;
    } else {
      assert (p + s)[1..] == p[1..] + s;
      SkipGapsOver(p[1..], s);
      var r := SkipGaps(p[1..]);
      if r != [] {
        assert (r + s)[1..] == r[1..] + s;
        if p[0] == Bound && r[0] == Plain(COMMA) {
          SkipGapsOver(r[1..], s);
          ItemsStopAtOpen(SkipGaps(r[1..]), s, true);
        }
      } else {
        assert r + s == s;
      }
    }
  }

  lemma {:induction false} ShortenSplits(p: seq<Token>, s: seq<Token>)
    requires s != [] && s[0] == Plain(OPEN)
    ensures Shorten(p + s) == Shorten(p) + Shorten(s)
    decreases |p|
  {
    if p == [] {
      assert p + s == s;
    } else {
      assert (p + s)[1..] == p[1..] + s;
      SkipGapsOver(p[1..], s);
      ItemsStopAtOpen(SkipGaps(p[1..]), s, false);
      if TokenList(p).Some? {
        ShortenSplits(TokenList(p).value, s);
      } else {
        ShortenSplits(p[1..], s);
      }
    }
  }

  /** A match does not depend on what follows it. */
  lemma {:induction false} ItemsThen(l: Text, several: bool, y: Text)
    requires MatchItems(l, several).Some?
    ensures MatchItems(l + y, several) == Some(MatchItems(l, several).value + y)
    decreases |l|
  {
    var digits := SkipDigits(l[1..]);
    var r := SkipSpaces(digits);
    assert (l + y)[1..] == l[1..] + y;
    DigitsStop(l[1..], y);
    SkipSpacesOver(digits, y);
    assert (r + y)[1..] == r[1..] + y;
    if r[0] == COMMA {
      SkipSpacesOver(r[1..], y);
      ItemsThen(SkipSpaces(r[1..]), true, y);
    }
  }

  lemma {:induction false} DigitsStop(x: Text, y: Text)
    requires SkipDigits(x) != []
    ensures SkipDigits(x + y) == SkipDigits(x) + y
  {
    assert (x + y)[1..] == x[1..] + y;
    if IsDigit(x[0]) {
      DigitsStop(x[1..], y);
    }
  }

  lemma {:induction false} ListThen(l: Text, y: Text)
    requires IsList(l)
    ensures l != [] && l[0] == OPEN && MatchList(l + y) == Some(y)
  {
    assert (l + y)[1..] == l[1..] + y;
    SkipSpacesOver(l[1..], y);
    ItemsThen(SkipSpaces(l[1..]), false, y);
    assert [] + y == y;
  }

  lemma {:induction false} ShortenedList(l: Text, y: Text)
    requires IsList(l)
    ensures Shorten(Lex(l + y)) == [Plain(OPEN), Bound, Plain(CLOSE)] + Shorten(Lex(y))
  {
    ListThen(l, y);
    MatchesListsAlike(l + y);
  }

  /** The length of a placeholder list, from two up, does not matter. */
  lemma {:induction false} ListLengthDoesNotMatter(x: Text, l: Text, m: Text, y: Text)
    requires IsList(l) && IsList(m)
    ensures Fingerprint(x + (l + y)) == Fingerprint(x + (m + y))
  {
    hide Lex, Shorten, Fingerprint, IsList;
    ListThen(l, y);
    ListThen(m, y);
    LexSplits(x, l + y);
    LexSplits(x, m + y);
    LexStart(l + y);
    LexStart(m + y);
    ShortenSplits(Lex(x), Lex(l + y));
    ShortenSplits(Lex(x), Lex(m + y));
    ShortenedList(l, y);
    ShortenedList(m, y);
    SameFingerprint(x + (l + y), x + (m + y));
  }
}
