/** Small shared vocabulary: optional values, JavaScript text and its ordering. */
module Common {

  datatype Option<+T> = None | Some(value: T)

  // A JavaScript string is a sequence of UTF-16 code units, paired or not.
  type Unit = u: int | 0 <= u < 0x10000
  type Text = seq<Unit>

  const LINE_FEED: Unit := 10
  const SPACE: Unit := ' ' as int
  const DASH: Unit := '-' as int
  const COMMA: Unit := ',' as int
  const DOLLAR: Unit := '$' as int

  predicate IsDigit(u: Unit) {
    '0' as int <= u <= '9' as int
  }

  predicate AllDigits(t: Text) {
    forall i | 0 <= i < |t| :: IsDigit(t[i])
  }

  /** What Number makes of decimal digits; of none, nothing. */
  function NumberOf(t: Text): nat
    requires AllDigits(t)
  {
    if t == [] then 0
    else
      assert IsDigit(t[|t| - 1]);
      10 * NumberOf(t[..|t| - 1]) + (t[|t| - 1] - '0' as int)
  }

  predicate IsHexDigit(u: Unit) {
    IsDigit(u) || 'a' as int <= u <= 'f' as int
  }

  /** What /^[0-9a-f]{64}$/ accepts, and what a hex SHA-256 digest looks like. */
  predicate IsDigest(t: Text) {
    |t| == 64 && forall i | 0 <= i < 64 :: IsHexDigit(t[i])
  }

  /** The code units of an ASCII literal. */
  function Ascii(s: string): (t: Text)
    requires forall i | 0 <= i < |s| :: s[i] < 128 as char
    ensures |t| == |s|
    ensures forall i | 0 <= i < |s| :: t[i] == s[i] as int
  {
    seq(|s|, i requires 0 <= i < |s| => s[i] as int)
  }

  lemma {:induction false} AsciiJoins(s: string, t: string)
    requires forall i | 0 <= i < |s| :: s[i] < 128 as char
    requires forall i | 0 <= i < |t| :: t[i] < 128 as char
    ensures Ascii(s + t) == Ascii(s) + Ascii(t)
  {
  }

  /** What \s matches, and trim() removes. */
  predicate IsSpace(u: Unit) {
    || 9 <= u <= 13 || u == 0x20 || u == 0xA0 || u == 0x1680 || 0x2000 <= u <= 0x200A
    || u == 0x2028 || u == 0x2029 || u == 0x202F || u == 0x205F || u == 0x3000 || u == 0xFEFF
  }

  function SkipSpaces(t: Text): (r: Text)
    ensures |r| <= |t|
    ensures r != [] ==> !IsSpace(r[0])
  {
    if t != [] && IsSpace(t[0]) then SkipSpaces(t[1..]) else t
  }

  function TrimEnd(t: Text): Text {
    if t != [] && IsSpace(t[|t| - 1]) then TrimEnd(t[..|t| - 1]) else t
  }

  function Trim(t: Text): Text {
    TrimEnd(SkipSpaces(t))
  }

  /** Trimming leaves nothing exactly of whitespace, and no whitespace at either end. */
  lemma {:induction false} TrimmedIs(t: Text)
    ensures Trim(t) == [] <==> forall i | 0 <= i < |t| :: IsSpace(t[i])
    ensures Trim(t) != [] ==> !IsSpace(Trim(t)[0]) && !IsSpace(Trim(t)[|Trim(t)| - 1])
  {
    SkipSpacesIs(t);
    TrimEndIs(SkipSpaces(t));
  }

  lemma {:induction false} SkipSpacesIs(t: Text)
    ensures SkipSpaces(t) == [] <==> forall i | 0 <= i < |t| :: IsSpace(t[i])
  {
    if t != [] && IsSpace(t[0]) {
      SkipSpacesIs(t[1..]);
      assert forall i | 0 < i < |t| :: t[i] == t[1..][i - 1];
    }
  }

  lemma {:induction false} TrimEndIs(t: Text)
    requires t != [] ==> !IsSpace(t[0])
    ensures TrimEnd(t) == [] <==> t == []
    ensures t != [] ==> TrimEnd(t)[0] == t[0] && !IsSpace(TrimEnd(t)[|TrimEnd(t)| - 1])
  {
    if t != [] && IsSpace(t[|t| - 1]) {
      TrimEndIs(t[..|t| - 1]);
    }
  }

  /** The order Array.prototype.sort gives strings: code unit by code unit. */
  predicate LexBefore(a: Text, b: Text) {
    b != [] && (a == [] || a[0] < b[0] || (a[0] == b[0] && LexBefore(a[1..], b[1..])))
  }

  lemma {:induction false} LexTotal(a: Text, b: Text)
    ensures a == b || LexBefore(a, b) || LexBefore(b, a)
    ensures !(LexBefore(a, b) && LexBefore(b, a))
  {
    if a != [] && b != [] {
      LexTotal(a[1..], b[1..]);
      assert a == [a[0]] + a[1..] && b == [b[0]] + b[1..];
    }
  }

  lemma {:induction false} LexTransitive(a: Text, b: Text, c: Text)
    requires LexBefore(a, b) && LexBefore(b, c)
    ensures LexBefore(a, c)
  {
    if a != [] && a[0] == b[0] == c[0] {
      LexTransitive(a[1..], b[1..], c[1..]);
    }
  }

  /** Parts end to end. */
  function Flatten<T>(parts: seq<seq<T>>): seq<T> {
    if parts == [] then [] else Flatten(parts[..|parts| - 1]) + parts[|parts| - 1]
  }

  lemma {:induction false} FlattenSnoc<T>(parts: seq<seq<T>>, part: seq<T>)
    ensures Flatten(parts + [part]) == Flatten(parts) + part
  {
    assert (parts + [part])[..|parts|] == parts;
  }

  ghost predicate Distinct<T>(s: seq<T>) {
    forall i, j | 0 <= i < j < |s| :: s[i] != s[j]
  }

  function SetOf<T>(s: seq<T>): set<T> {
    set t | t in s
  }

  lemma {:induction false} SubsetIsSmaller<T>(a: set<T>, b: set<T>)
    requires a <= b
    ensures |a| <= |b|
  {
    assert b == a + (b - a);
  }
}
