/** JSON text, as JSON.stringify writes it, and why it reads one way. */
module JsonText {
  import opened Common

  const QUOTE: Unit := 34
  const MINUS: Unit := 45
  const COLON: Unit := 58
  const OPEN_BRACKET: Unit := 91
  const BACKSLASH: Unit := 92
  const CLOSE_BRACKET: Unit := 93
  const OPEN_BRACE: Unit := 123
  const CLOSE_BRACE: Unit := 125

  /** What JSON.stringify serialises, members in the order it enumerates them. */
  datatype Json =
    | JNull
    | JBool(b: bool)
    | JNumber(text: Text)
    | JString(s: Text)
    | JArray(items: seq<Json>)
    | JObject(members: seq<Member>)

  datatype Member = Member(key: Text, value: Json)

  // ---------------------------------------------------------------- strings

  predicate IsLead(u: Unit) { 0xD800 <= u <= 0xDBFF }

  predicate IsTrail(u: Unit) { 0xDC00 <= u <= 0xDFFF }

  predicate StartsWithPair(s: Text) {
    |s| >= 2 && IsLead(s[0]) && IsTrail(s[1])
  }

  function HexDigit(d: int): (u: Unit)
    requires 0 <= d < 16
    ensures IsHexDigit(u)
  {
    if d < 10 then '0' as int + d else 'a' as int + d - 10
  }

  function HexValue(u: Unit): int {
    if u < 'a' as int then u - '0' as int else u - 'a' as int + 10
  }

  function Hex4(u: Unit): Text {
    var (high, low) := (u / 256, u % 256);
    [HexDigit(high / 16), HexDigit(high % 16), HexDigit(low / 16), HexDigit(low % 16)]
  }

  /** QuoteJSONString of section 25.5.2.3 of ECMA-262, one code unit not in a pair. */
  function EscapeUnit(u: Unit): Text {
    if u == 8 then [BACKSLASH, 'b' as int]
    else if u == 9 then [BACKSLASH, 't' as int]
    else if u == 10 then [BACKSLASH, 'n' as int]
    else if u == 12 then [BACKSLASH, 'f' as int]
    else if u == 13 then [BACKSLASH, 'r' as int]
    else if u == QUOTE || u == BACKSLASH then [BACKSLASH, u]
    else if u < 32 || IsLead(u) || IsTrail(u) then [BACKSLASH, 'u' as int] + Hex4(u)
    else [u]
  }

  function Escape(s: Text): Text {
    if s == [] then []
    else if StartsWithPair(s) then s[..2] + Escape(s[2..])
    else EscapeUnit(s[0]) + Escape(s[1..])
  }

  function PrintString(s: Text): Text {
    [QUOTE] + Escape(s) + [QUOTE]
  }

  function UnescapedLetter(u: Unit): Unit {
    if u == 'b' as int then 8
    else if u == 't' as int then 9
    else if u == 'n' as int then 10
    else if u == 'f' as int then 12
    else if u == 'r' as int then 13
    else u
  }

  datatype Read = Read(s: Text, rest: Text)

  /** A reader of string bodies: the text up to the closing quote, and what follows it. */
  ghost function ReadString(t: Text): Read {
    if t == [] || t[0] == QUOTE then
      Read([], if t == [] then [] else t[1..])
    else if t[0] != BACKSLASH then
      var r := ReadString(t[1..]); Read([t[0]] + r.s, r.rest)
    else if |t| >= 6 && t[1] == 'u' as int then
      var v := 4096 * HexValue(t[2]) + 256 * HexValue(t[3]) + 16 * HexValue(t[4]) + HexValue(t[5]);
      var r := ReadString(t[6..]); Read([if 0 <= v < 0x10000 then v else 0] + r.s, r.rest)
    else if |t| >= 2 then
      var r := ReadString(t[2..]); Read([UnescapedLetter(t[1])] + r.s, r.rest)
    else
      Read([], [])
  }

  lemma {:induction false} HexDigitDecodes(d: int)
    requires 0 <= d < 16
    ensures HexValue(HexDigit(d)) == d
  {
  }

  lemma {:induction false} Hex4Decodes(u: Unit)
    ensures var h := Hex4(u);
            4096 * HexValue(h[0]) + 256 * HexValue(h[1]) + 16 * HexValue(h[2]) + HexValue(h[3]) == u
  {
    var (high, low) := (u / 256, u % 256);
    HexDigitDecodes(high / 16);
    HexDigitDecodes(high % 16);
    HexDigitDecodes(low / 16);
    HexDigitDecodes(low % 16);
  }

  lemma {:induction false} ReadHexEscape(u: Unit, tail: Text)
    ensures ReadString([BACKSLASH, 'u' as int] + Hex4(u) + tail) == Read([u] + ReadString(tail).s, ReadString(tail).rest)
  {
    var t := [BACKSLASH, 'u' as int] + Hex4(u) + tail;
    assert t[6..] == tail;
    assert t[2] == Hex4(u)[0] && t[3] == Hex4(u)[1] && t[4] == Hex4(u)[2] && t[5] == Hex4(u)[3];
    Hex4Decodes(u);
  }

  lemma {:induction false} ReadEscapedUnit(u: Unit, tail: Text)
    ensures ReadString(EscapeUnit(u) + tail) == Read([u] + ReadString(tail).s, ReadString(tail).rest)
  {
    if EscapeUnit(u) == [BACKSLASH, 'u' as int] + Hex4(u) {
      hide ReadString, Hex4;
      ReadHexEscape(u, tail);
    } else {
      assert (EscapeUnit(u) + tail)[|EscapeUnit(u)|..] == tail;
    }
  }

  lemma {:induction false} ReadPlain(u: Unit, tail: Text)
    requires u != QUOTE && u != BACKSLASH
    ensures ReadString([u] + tail) == Read([u] + ReadString(tail).s, ReadString(tail).rest)
  {
    assert ([u] + tail)[1..] == tail;
  }

  lemma {:induction false} Prepend(head: Text, body: Text, rest: Text)
    ensures head + body + [QUOTE] + rest == head + (body + [QUOTE] + rest)
  {
  }

  lemma {:induction false} ReadPair(a: Unit, b: Unit, tail: Text)
    requires IsLead(a) && IsTrail(b)
    ensures ReadString([a, b] + tail) == Read([a, b] + ReadString(tail).s, ReadString(tail).rest)
  {
    assert [a, b] + tail == [a] + ([b] + tail);
    ReadPlain(b, tail);
    ReadPlain(a, [b] + tail);
    assert [a] + ([b] + ReadString(tail).s) == [a, b] + ReadString(tail).s;
  }

  lemma {:induction false} ReadPrinted(s: Text, rest: Text)
    ensures ReadString(Escape(s) + [QUOTE] + rest) == Read(s, rest)
  {
    if s == [] {
      assert Escape(s) + [QUOTE] + rest == [QUOTE] + rest;
      assert ([QUOTE] + rest)[1..] == rest;
    } else if StartsWithPair(s) {
      Prepend([s[0], s[1]], Escape(s[2..]), rest);
      assert s == [s[0], s[1]] + s[2..];
      assert s[..2] == [s[0], s[1]];
      ReadPair(s[0], s[1], Escape(s[2..]) + [QUOTE] + rest);
      ReadPrinted(s[2..], rest);
    } else {
      Prepend(EscapeUnit(s[0]), Escape(s[1..]), rest);
      assert s == [s[0]] + s[1..];
      ReadEscapedUnit(s[0], Escape(s[1..]) + [QUOTE] + rest);
      ReadPrinted(s[1..], rest);
    }
  }

  /** Behind its opening quote a string reads back. */
  lemma {:induction false} StringReads(s: Text, rest: Text)
    ensures PrintString(s) + rest != [] && ReadString((PrintString(s) + rest)[1..]) == Read(s, rest)
  {
    assert (PrintString(s) + rest)[1..] == Escape(s) + [QUOTE] + rest;
    hide Escape, ReadString;
    ReadPrinted(s, rest);
  }

  lemma {:induction false} StringReadable(s: Text, t: Text, rs: Text, rt: Text)
    requires PrintString(s) + rs == PrintString(t) + rt
    ensures s == t && rs == rt
  {
    hide *;
    StringReads(s, rs);
    StringReads(t, rt);
  }

  // ---------------------------------------------------------------- numbers

  predicate IsNumberUnit(u: Unit) {
    IsDigit(u) || u == MINUS || u == '+' as int || u == '.' as int || u == 'e' as int
  }

  /** The shape every Number::toString text of a finite number has: enough to delimit it. */
  predicate IsNumberText(t: Text) {
    t != [] && (IsDigit(t[0]) || t[0] == MINUS) && forall i | 0 <= i < |t| :: IsNumberUnit(t[i])
  }

  /** What may follow a value in a JSON text. */
  predicate EndsValue(rest: Text) {
    rest == [] || rest[0] == COMMA || rest[0] == CLOSE_BRACKET || rest[0] == CLOSE_BRACE
  }

  lemma {:induction false} NumberReadable(a: Text, b: Text, ra: Text, rb: Text)
    requires IsNumberText(a) && IsNumberText(b) && EndsValue(ra) && EndsValue(rb)
    requires a + ra == b + rb
    ensures a == b && ra == rb
  {
    var whole := a + ra;
    assert whole == b + rb;
    assert forall i | 0 <= i < |a| || 0 <= i < |b| :: IsNumberUnit(whole[i]);
    assert |a| < |whole| ==> !IsNumberUnit(whole[|a|]);
    assert |b| < |whole| ==> !IsNumberUnit(whole[|b|]);
    assert |a| == |b|;
    assert a == whole[..|a|] && b == whole[..|b|];
    assert ra == whole[|a|..] && rb == whole[|b|..];
  }

  // ----------------------------------------------------------------- values

  const NULL: Text := [110, 117, 108, 108]
  const TRUE: Text := [116, 114, 117, 101]
  const FALSE: Text := [102, 97, 108, 115, 101]

  function Print(j: Json): Text
    decreases j, 0
  {
    match j
    case JNull => NULL
    case JBool(b) => if b then TRUE else FALSE
    case JNumber(text) => text
    case JString(s) => PrintString(s)
    case JArray(items) => [OPEN_BRACKET] + PrintItems(items) + [CLOSE_BRACKET]
    case JObject(members) => [OPEN_BRACE] + PrintMembers(members) + [CLOSE_BRACE]
  }

  function PrintItems(items: seq<Json>): Text
    decreases items, 0
  {
    if items == [] then []
    else if |items| == 1 then Print(items[0])
    else Print(items[0]) + [COMMA] + PrintItems(items[1..])
  }

  function PrintMember(m: Member): Text
    decreases m, 1
  {
    PrintString(m.key) + [COLON] + Print(m.value)
  }

  function PrintMembers(members: seq<Member>): Text
    decreases members, 0
  {
    if members == [] then []
    else if |members| == 1 then PrintMember(members[0])
    else PrintMember(members[0]) + [COMMA] + PrintMembers(members[1..])
  }

  ghost predicate WellFormed(j: Json) {
    match j
    case JNumber(text) => IsNumberText(text)
    case JArray(items) => forall i | 0 <= i < |items| :: WellFormed(items[i])
    case JObject(members) => forall i | 0 <= i < |members| :: WellFormed(members[i].value)
    case _ => true
  }

  /** The first unit of a value tells its kind and is never a delimiter. */
  lemma {:induction false} PrintStarts(j: Json)
    requires WellFormed(j)
    ensures Print(j) != []
    ensures var u := Print(j)[0];
            && (j.JNull? <==> u == 110)
            && (j.JBool? <==> u == 116 || u == 102)
            && (j.JNumber? <==> IsDigit(u) || u == MINUS)
            && (j.JString? <==> u == QUOTE)
            && (j.JArray? <==> u == OPEN_BRACKET)
            && (j.JObject? <==> u == OPEN_BRACE)
  {
  }

  lemma {:induction false} DropOpening(u: Unit, body: Text, close: Unit, rest: Text)
    ensures ([u] + body + [close] + rest)[1..] == body + ([close] + rest)
    ensures ([close] + rest)[1..] == rest
  {
  }

  /** Unique readability: a text is the print of one value, and of one place to stop. */
  lemma {:induction false} Readable(a: Json, b: Json, ra: Text, rb: Text)
    requires WellFormed(a) && WellFormed(b) && EndsValue(ra) && EndsValue(rb)
    requires Print(a) + ra == Print(b) + rb
    ensures a == b && ra == rb
    decreases a, 0
  {
    SameKind(a, b, ra, rb);
    match a
    case JNull =>
      assert ra == (Print(a) + ra)[4..] == rb;
    case JBool(x) =>
      assert ra == (Print(a) + ra)[|Print(a)|..] == rb;
    case JNumber(text) =>
      NumberReadable(text, b.text, ra, rb);
    case JString(s) =>
      StringReadable(s, b.s, ra, rb);
    case JArray(items) =>
      DropOpening(OPEN_BRACKET, PrintItems(items), CLOSE_BRACKET, ra);
      DropOpening(OPEN_BRACKET, PrintItems(b.items), CLOSE_BRACKET, rb);
      ItemsReadable(items, b.items, [CLOSE_BRACKET] + ra, [CLOSE_BRACKET] + rb);
    case JObject(members) =>
      DropOpening(OPEN_BRACE, PrintMembers(members), CLOSE_BRACE, ra);
      DropOpening(OPEN_BRACE, PrintMembers(b.members), CLOSE_BRACE, rb);
      MembersReadable(members, b.members, [CLOSE_BRACE] + ra, [CLOSE_BRACE] + rb);
  }

  lemma {:induction false} SameKind(a: Json, b: Json, ra: Text, rb: Text)
    requires WellFormed(a) && WellFormed(b)
    requires Print(a) + ra == Print(b) + rb
    ensures a.JNull? == b.JNull? && a.JNumber? == b.JNumber? && a.JString? == b.JString?
    ensures a.JArray? == b.JArray? && a.JObject? == b.JObject?
    ensures a.JBool? ==> a == b
  {
    PrintStarts(a);
    PrintStarts(b);
    assert (Print(a) + ra)[0] == Print(a)[0] && (Print(b) + rb)[0] == Print(b)[0];
  }

  lemma {:induction false} ItemsReadable(a: seq<Json>, b: seq<Json>, ra: Text, rb: Text)
    requires forall i | 0 <= i < |a| :: WellFormed(a[i])
    requires forall i | 0 <= i < |b| :: WellFormed(b[i])
    requires ra != [] && ra[0] == CLOSE_BRACKET && rb != [] && rb[0] == CLOSE_BRACKET
    requires PrintItems(a) + ra == PrintItems(b) + rb
    ensures a == b && ra == rb
    decreases a, 1
  {
    hide Print, PrintItems, WellFormed;
    ItemsHead(a, ra);
    ItemsHead(b, rb);
    assert a == [] <==> b == [];
    if a != [] {
      var ta, tb := AfterItem(a, ra), AfterItem(b, rb);
      ItemsSplit(a, ra);
      ItemsSplit(b, rb);
      Readable(a[0], b[0], ta, tb);
      assert |a| == 1 <==> |b| == 1;
      if |a| > 1 {
        ItemsReadable(a[1..], b[1..], ra, rb);
        assert a == [a[0]] + a[1..] && b == [b[0]] + b[1..];
      }
    }
  }

  ghost function AfterItem(items: seq<Json>, rest: Text): Text
    requires items != []
  {
    if |items| == 1 then rest else [COMMA] + (PrintItems(items[1..]) + rest)
  }

  lemma {:induction false} Regroup(first: Text, u: Unit, more: Text, rest: Text)
    ensures first + [u] + more + rest == first + ([u] + (more + rest))
    ensures ([u] + (more + rest))[1..] == more + rest
  {
  }

  lemma {:induction false} ItemsSplit(items: seq<Json>, rest: Text)
    requires items != []
    ensures PrintItems(items) + rest == Print(items[0]) + AfterItem(items, rest)
    ensures |items| > 1 ==> AfterItem(items, rest)[1..] == PrintItems(items[1..]) + rest
  {
    if |items| > 1 {
      Regroup(Print(items[0]), COMMA, PrintItems(items[1..]), rest);
    }
  }

  lemma {:induction false} ItemsHead(items: seq<Json>, rest: Text)
    requires forall i | 0 <= i < |items| :: WellFormed(items[i])
    requires rest != [] && rest[0] == CLOSE_BRACKET
    ensures items == [] ==> PrintItems(items) + rest == rest
    ensures items == [] <==> (PrintItems(items) + rest)[0] == CLOSE_BRACKET
  {
    if items == [] {
      assert PrintItems(items) == [];
    } else {
      ItemsSplit(items, rest);
      PrintStarts(items[0]);
    }
  }

  lemma {:induction false} MembersReadable(a: seq<Member>, b: seq<Member>, ra: Text, rb: Text)
    requires forall i | 0 <= i < |a| :: WellFormed(a[i].value)
    requires forall i | 0 <= i < |b| :: WellFormed(b[i].value)
    requires ra != [] && ra[0] == CLOSE_BRACE && rb != [] && rb[0] == CLOSE_BRACE
    requires PrintMembers(a) + ra == PrintMembers(b) + rb
    ensures a == b && ra == rb
    decreases a, 1
  {
    hide Print, PrintString, PrintMembers, WellFormed;
    MembersHead(a, ra);
    MembersHead(b, rb);
    assert a == [] <==> b == [];
    if a != [] {
      var ta, tb := AfterMember(a, ra), AfterMember(b, rb);
      MembersSplit(a, ra);
      MembersSplit(b, rb);
      var va, vb := Print(a[0].value) + ta, Print(b[0].value) + tb;
      StringReadable(a[0].key, b[0].key, [COLON] + va, [COLON] + vb);
      assert va == ([COLON] + va)[1..] == vb;
      Readable(a[0].value, b[0].value, ta, tb);
      assert |a| == 1 <==> |b| == 1;
      if |a| > 1 {
        MembersReadable(a[1..], b[1..], ra, rb);
        assert a == [a[0]] + a[1..] && b == [b[0]] + b[1..];
      }
    }
  }

  ghost function AfterMember(members: seq<Member>, rest: Text): Text
    requires members != []
  {
    if |members| == 1 then rest else [COMMA] + (PrintMembers(members[1..]) + rest)
  }

  lemma {:induction false} MembersSplit(members: seq<Member>, rest: Text)
    requires members != []
    ensures PrintMembers(members) + rest
         == PrintString(members[0].key) + ([COLON] + (Print(members[0].value) + AfterMember(members, rest)))
    ensures |members| > 1 ==> AfterMember(members, rest)[1..] == PrintMembers(members[1..]) + rest
  {
    var key, value := PrintString(members[0].key), Print(members[0].value);
    if |members| > 1 {
      Regroup(PrintMember(members[0]), COMMA, PrintMembers(members[1..]), rest);
    }
    Regroup(key, COLON, value, AfterMember(members, rest));
  }

  lemma {:induction false} MembersHead(members: seq<Member>, rest: Text)
    requires rest != [] && rest[0] == CLOSE_BRACE
    ensures members == [] ==> PrintMembers(members) + rest == rest
    ensures members == [] <==> (PrintMembers(members) + rest)[0] == CLOSE_BRACE
  {
    if members == [] {
      assert PrintMembers(members) == [];
    } else {
      MembersSplit(members, rest);
    }
  }

  lemma {:induction false} PrintInjective(a: Json, b: Json)
    requires WellFormed(a) && WellFormed(b) && Print(a) == Print(b)
    ensures a == b
  {
    assert Print(a) + [] == Print(a) && Print(b) + [] == Print(b);
    Readable(a, b, [], []);
  }

  /** The literal names of RFC 8259. */
  lemma {:induction false} LiteralsPrint()
    ensures Print(JNull) == Ascii("null") && Print(JBool(true)) == Ascii("true") && Print(JBool(false)) == Ascii("false")
  {
    assert |Ascii("null")| == 4 && |Ascii("true")| == 4 && |Ascii("false")| == 5;
  }

  // --------------------------------------------------------- well-formed text

  /** Surrogates come in pairs: encoding the text as UTF-8 and decoding it gives it back. */
  predicate IsPaired(t: Text) {
    t == []
    || (StartsWithPair(t) && IsPaired(t[2..]))
    || (!IsLead(t[0]) && !IsTrail(t[0]) && IsPaired(t[1..]))
  }

  lemma {:induction false} PairedJoins(a: Text, b: Text)
    requires IsPaired(a) && IsPaired(b)
    ensures IsPaired(a + b)
    decreases |a|
  {
    if a == [] {
      assert a + b == b;
    } else if StartsWithPair(a) && IsPaired(a[2..]) {
      assert (a + b)[2..] == a[2..] + b;
      PairedJoins(a[2..], b);
    } else {
      assert (a + b)[1..] == a[1..] + b;
      PairedJoins(a[1..], b);
    }
  }

  lemma {:induction false} NoSurrogatePaired(t: Text)
    requires forall i | 0 <= i < |t| :: !IsLead(t[i]) && !IsTrail(t[i])
    ensures IsPaired(t)
  {
    if t != [] {
      NoSurrogatePaired(t[1..]);
    }
  }

  lemma {:induction false} EscapeUnitPaired(u: Unit)
    ensures IsPaired(EscapeUnit(u))
  {
    var h := Hex4(u);
    assert forall i | 0 <= i < 4 :: IsHexDigit(h[i]);
    NoSurrogatePaired(EscapeUnit(u));
  }

  lemma {:induction false} EscapePaired(s: Text)
    ensures IsPaired(Escape(s))
    decreases |s|
  {
    if s != [] {
      if StartsWithPair(s) {
        EscapePaired(s[2..]);
        assert (s[..2] + Escape(s[2..]))[2..] == Escape(s[2..]);
      } else {
        EscapeUnitPaired(s[0]);
        EscapePaired(s[1..]);
        PairedJoins(EscapeUnit(s[0]), Escape(s[1..]));
      }
    }
  }

  lemma {:induction false} OneUnitPaired(u: Unit)
    requires !IsLead(u) && !IsTrail(u)
    ensures IsPaired([u])
  {
    assert [u][1..] == [];
  }

  lemma {:induction false} StringPaired(s: Text)
    ensures IsPaired(PrintString(s))
  {
    EscapePaired(s);
    OneUnitPaired(QUOTE);
    hide Escape, IsPaired;
    PairedJoins([QUOTE], Escape(s));
    PairedJoins([QUOTE] + Escape(s), [QUOTE]);
  }

  /** Lone surrogates are escaped, so a JSON text is well-formed Unicode, whatever is in its strings. */
  lemma {:induction false} PrintPaired(j: Json)
    requires WellFormed(j)
    ensures IsPaired(Print(j))
    decreases j, 0
  {
    match j
    case JNull => NoSurrogatePaired(NULL);
    case JBool(b) => NoSurrogatePaired(if b then TRUE else FALSE);
    case JNumber(text) =>
      assert forall i | 0 <= i < |text| :: IsNumberUnit(text[i]);
      NoSurrogatePaired(text);
    case JString(s) => StringPaired(s);
    case JArray(items) =>
      ItemsPaired(items);
      Enclosed(OPEN_BRACKET, PrintItems(items), CLOSE_BRACKET);
    case JObject(members) =>
      MembersPaired(members);
      Enclosed(OPEN_BRACE, PrintMembers(members), CLOSE_BRACE);
  }

  lemma {:induction false} Enclosed(open: Unit, t: Text, close: Unit)
    requires IsPaired(t) && open < 0xD800 && close < 0xD800
    ensures IsPaired([open] + t + [close])
  {
    OneUnitPaired(open);
    OneUnitPaired(close);
    hide IsPaired;
    PairedJoins([open], t);
    PairedJoins([open] + t, [close]);
  }

  lemma {:induction false} Between(a: Text, u: Unit, b: Text)
    requires IsPaired(a) && IsPaired(b) && u < 0xD800
    ensures IsPaired(a + [u] + b)
  {
    OneUnitPaired(u);
    hide IsPaired;
    PairedJoins(a, [u]);
    PairedJoins(a + [u], b);
  }

  lemma {:induction false} ItemsPaired(items: seq<Json>)
    requires forall i | 0 <= i < |items| :: WellFormed(items[i])
    ensures IsPaired(PrintItems(items))
    decreases items, 0
  {
    if items != [] {
      PrintPaired(items[0]);
      ItemsPaired(items[1..]);
      Between(Print(items[0]), COMMA, PrintItems(items[1..]));
    }
  }

  lemma {:induction false} MembersPaired(members: seq<Member>)
    requires forall i | 0 <= i < |members| :: WellFormed(members[i].value)
    ensures IsPaired(PrintMembers(members))
    decreases members, 0
  {
    if members != [] {
      StringPaired(members[0].key);
      PrintPaired(members[0].value);
      MembersPaired(members[1..]);
      Between(PrintString(members[0].key), COLON, Print(members[0].value));
      Between(PrintMember(members[0]), COMMA, PrintMembers(members[1..]));
    }
  }
}
