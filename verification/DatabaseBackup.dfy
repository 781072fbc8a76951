/** Dump files: what they are named, which are kept. */
module DatabaseBackup {
  import opened Common
  import S = StorageKeys

  /** An instant in UTC, as toISOString spells it out. */
  datatype Instant = Instant(year: nat, month: nat, day: nat, hour: nat, minute: nat, second: nat, ms: nat)

  /** The years ISO 8601 writes with four digits. */
  predicate InRange(t: Instant) {
    t.year < 10000 && t.month < 100 && t.day < 100 && t.hour < 100 && t.minute < 100 && t.second < 100 && t.ms < 1000
  }

  const COLON: Unit := ':' as int
  const DOT: Unit := '.' as int
  const TEE: Unit := 'T' as int
  const ZULU: Unit := 'Z' as int
  const EXTENSION: Text := Ascii(".dump")

  function Iso(t: Instant): Text {
    S.Fixed(4, t.year) + [DASH] + S.Fixed(2, t.month) + [DASH] + S.Fixed(2, t.day) + [TEE]
    + S.Fixed(2, t.hour) + [COLON] + S.Fixed(2, t.minute) + [COLON] + S.Fixed(2, t.second) + [DOT]
    + S.Fixed(3, t.ms) + [ZULU]
  }

  /** replace(/[-:]/g, '') */
  function WithoutMarks(t: Text): Text {
    if t == [] then []
    else if t[0] == DASH || t[0] == COLON then WithoutMarks(t[1..])
    else [t[0]] + WithoutMarks(t[1..])
  }

  /** How many digits a text ends with. */
  function DigitsAtEnd(t: Text): (n: nat)
    ensures n <= |t|
  {
    if t != [] && IsDigit(t[|t| - 1]) then 1 + DigitsAtEnd(t[..|t| - 1]) else 0
  }

  /** replace(/\.\d+Z$/, 'Z') */
  function WithoutFraction(t: Text): Text {
    if t != [] && t[|t| - 1] == ZULU then
      var body := t[..|t| - 1];
      var n := DigitsAtEnd(body);
      if n > 0 && |body| > n && body[|body| - n - 1] == DOT then body[..|body| - n - 1] + [ZULU] else t
    else t
  }

  function Stamp(t: Instant): Text {
    WithoutFraction(WithoutMarks(Iso(t)))
  }

  function FileName(database: Text, now: Instant): Text {
    database + [DASH] + Stamp(now) + EXTENSION
  }

  // ---------------------------------------------------------- names read back

  datatype Parsed = Parsed(database: Text, createdAt: Instant)

  predicate IsBreak(u: Unit) {
    u == 10 || u == 13 || u == 0x2028 || u == 0x2029
  }

  predicate IsStamp(t: Text) {
    |t| == 16 && AllDigits(t[..8]) && t[8] == TEE && AllDigits(t[9..15]) && t[15] == ZULU
  }

  predicate IsBackup(name: Text) {
    && |name| >= 23 && name[|name| - 5..] == EXTENSION && IsStamp(name[|name| - 21..|name| - 5])
    && name[|name| - 22] == DASH
    && forall i | 0 <= i < |name| - 22 :: !IsBreak(name[i])
  }

  /** The date a stamp spells; one out of range is an invalid date, with these fields. */
  function StampInstant(stamp: Text): Instant
    requires IsStamp(stamp)
  {
    DigitsSplit(stamp);
    Instant(NumberOf(stamp[..4]), NumberOf(stamp[4..6]), NumberOf(stamp[6..8]),
            NumberOf(stamp[9..11]), NumberOf(stamp[11..13]), NumberOf(stamp[13..15]), 0)
  }

  lemma {:induction false} DigitsSplit(stamp: Text)
    requires IsStamp(stamp)
    ensures AllDigits(stamp[..4]) && AllDigits(stamp[4..6]) && AllDigits(stamp[6..8])
    ensures AllDigits(stamp[9..11]) && AllDigits(stamp[11..13]) && AllDigits(stamp[13..15])
  {
    PartDigits(stamp, 0, 8, 0, 4);
    PartDigits(stamp, 0, 8, 4, 6);
    PartDigits(stamp, 0, 8, 6, 8);
    PartDigits(stamp, 9, 15, 9, 11);
    PartDigits(stamp, 9, 15, 11, 13);
    PartDigits(stamp, 9, 15, 13, 15);
  }

  lemma {:induction false} PartDigits(t: Text, lo: nat, hi: nat, i: nat, j: nat)
    requires lo <= i <= j <= hi <= |t| && AllDigits(t[lo..hi])
    ensures AllDigits(t[i..j])
  {
    forall k | 0 <= k < j - i ensures IsDigit(t[i..j][k]) {
      assert t[i..j][k] == t[lo..hi][i - lo + k];
    }
  }

  /** parseBackupName: the pattern takes the database as far as the last stamp allows. */
  function ParseName(name: Text): Option<Parsed> {
    if IsBackup(name) then
      Some(Parsed(name[..|name| - 22], StampInstant(name[|name| - 21..|name| - 5])))
    else None
  }

  lemma {:induction false} FixedDigits(k: nat, n: nat)
    ensures AllDigits(S.Fixed(k, n))
  {
    if k > 0 {
      FixedDigits(k - 1, n / 10);
    }
  }

  lemma {:induction false} FixedReads(k: nat, n: nat)
    requires n < S.Power(k)
    ensures AllDigits(S.Fixed(k, n)) && NumberOf(S.Fixed(k, n)) == n
  {
    FixedDigits(k, n);
    if k > 0 {
      FixedDigits(k - 1, n / 10);
      FixedReads(k - 1, n / 10);
      assert S.Fixed(k, n)[..k - 1] == S.Fixed(k - 1, n / 10);
    }
  }

  lemma {:induction false} MarksGone(a: Text, b: Text)
    ensures WithoutMarks(a + b) == WithoutMarks(a) + WithoutMarks(b)
  {
    if a == [] {
      assert a + b == b;
    } else {
      assert (a + b)[1..] == a[1..] + b;
      MarksGone(a[1..], b);
    }
  }

  lemma {:induction false} DigitsStay(t: Text)
    requires AllDigits(t)
    ensures WithoutMarks(t) == t
  {
    if t != [] {
      assert t == [t[0]] + t[1..];
      DigitsStay(t[1..]);
    }
  }

  lemma {:induction false} OneUnit(u: Unit)
    ensures WithoutMarks([u]) == if u == DASH || u == COLON then [] else [u]
  {
    assert [u][1..] == [];
  }

  /** Digits and a mark, or digits and any other unit. */
  lemma {:induction false} MarkAfterDigits(k: nat, n: nat, u: Unit, rest: Text)
    ensures WithoutMarks(S.Fixed(k, n) + [u] + rest)
         == S.Fixed(k, n) + (if u == DASH || u == COLON then [] else [u]) + WithoutMarks(rest)
  {
    FixedDigits(k, n);
    DigitsStay(S.Fixed(k, n));
    OneUnit(u);
    MarksGone(S.Fixed(k, n) + [u], rest);
    MarksGone(S.Fixed(k, n), [u]);
  }

  function DatePart(t: Instant): Text {
    S.Fixed(4, t.year) + S.Fixed(2, t.month) + S.Fixed(2, t.day)
  }

  function TimePart(t: Instant): Text {
    S.Fixed(2, t.hour) + S.Fixed(2, t.minute) + S.Fixed(2, t.second)
  }

  lemma {:induction false} IsoTime(t: Instant)
    ensures WithoutMarks(S.Fixed(2, t.hour) + [COLON] + (S.Fixed(2, t.minute) + [COLON] + (S.Fixed(2, t.second) + [DOT]
              + (S.Fixed(3, t.ms) + [ZULU] + []))))
         == TimePart(t) + [DOT] + S.Fixed(3, t.ms) + [ZULU]
  {
    hide WithoutMarks, S.Fixed;
    assert WithoutMarks([]) == [] by { NoMarks(); }
    MarkAfterDigits(3, t.ms, ZULU, []);
    MarkAfterDigits(2, t.second, DOT, S.Fixed(3, t.ms) + [ZULU] + []);
    MarkAfterDigits(2, t.minute, COLON, S.Fixed(2, t.second) + [DOT] + (S.Fixed(3, t.ms) + [ZULU] + []));
    MarkAfterDigits(2, t.hour, COLON, S.Fixed(2, t.minute) + [COLON] + (S.Fixed(2, t.second) + [DOT]
      + (S.Fixed(3, t.ms) + [ZULU] + [])));
  }

  lemma {:induction false} NoMarks()
    ensures WithoutMarks([]) == []
  {
  }

  lemma {:induction false} IsoWithoutMarks(t: Instant)
    ensures WithoutMarks(Iso(t)) == DatePart(t) + [TEE] + TimePart(t) + [DOT] + S.Fixed(3, t.ms) + [ZULU]
  {
    hide WithoutMarks, S.Fixed;
    var time := S.Fixed(2, t.hour) + [COLON] + (S.Fixed(2, t.minute) + [COLON] + (S.Fixed(2, t.second) + [DOT]
      + (S.Fixed(3, t.ms) + [ZULU] + [])));
    IsoTime(t);
    MarkAfterDigits(2, t.day, TEE, time);
    MarkAfterDigits(2, t.month, DASH, S.Fixed(2, t.day) + [TEE] + time);
    MarkAfterDigits(4, t.year, DASH, S.Fixed(2, t.month) + [DASH] + (S.Fixed(2, t.day) + [TEE] + time));
    assert Iso(t) == S.Fixed(4, t.year) + [DASH] + (S.Fixed(2, t.month) + [DASH] + (S.Fixed(2, t.day) + [TEE] + time));
  }

  lemma {:induction false} EndsInDigits(head: Text, digits: Text)
    requires head != [] && !IsDigit(head[|head| - 1]) && AllDigits(digits)
    ensures DigitsAtEnd(head + digits) == |digits|
  {
    if digits == [] {
      assert head + digits == head;
    } else {
      assert IsDigit(digits[|digits| - 1]);
      assert (head + digits)[..|head + digits| - 1] == head + digits[..|digits| - 1];
      EndsInDigits(head, digits[..|digits| - 1]);
    }
  }

  /** The stamp a dump gets: the instant's digits, to the second. */
  lemma {:induction false} StampIs(t: Instant)
    ensures Stamp(t) == DatePart(t) + [TEE] + TimePart(t) + [ZULU]
  {
    IsoWithoutMarks(t);
    hide WithoutMarks, S.Fixed, DatePart, TimePart, Iso;
    var head, digits := DatePart(t) + [TEE] + TimePart(t) + [DOT], S.Fixed(3, t.ms);
    FixedDigits(3, t.ms);
    EndsInDigits(head, digits);
    var all := DatePart(t) + [TEE] + TimePart(t) + [DOT] + S.Fixed(3, t.ms) + [ZULU];
    assert all[..|all| - 1] == head + digits;
    assert (head + digits)[..|head| - 1] == DatePart(t) + [TEE] + TimePart(t);
  }

  function ToSecond(t: Instant): Instant {
    t.(ms := 0)
  }

  lemma {:induction false} Powers()
    ensures S.Power(2) == 100 && S.Power(4) == 10000
  {
  }

  lemma {:induction false} StampReads(t: Instant)
    requires InRange(t)
    ensures IsStamp(Stamp(t)) && StampInstant(Stamp(t)) == ToSecond(t)
  {
    StampIs(t);
    Powers();
    hide Stamp, S.Fixed, S.Power, NumberOf;
    FixedReads(4, t.year);
    FixedReads(2, t.month);
    FixedReads(2, t.day);
    FixedReads(2, t.hour);
    FixedReads(2, t.minute);
    FixedReads(2, t.second);
    StampFields(t);
  }

  lemma {:induction false} StampFields(t: Instant)
    requires Stamp(t) == DatePart(t) + [TEE] + TimePart(t) + [ZULU]
    ensures IsStamp(Stamp(t))
    ensures Stamp(t)[..4] == S.Fixed(4, t.year) && Stamp(t)[4..6] == S.Fixed(2, t.month)
    ensures Stamp(t)[6..8] == S.Fixed(2, t.day) && Stamp(t)[9..11] == S.Fixed(2, t.hour)
    ensures Stamp(t)[11..13] == S.Fixed(2, t.minute) && Stamp(t)[13..15] == S.Fixed(2, t.second)
  {
    hide Stamp, S.Fixed;
    FixedDigits(4, t.year);
    FixedDigits(2, t.month);
    FixedDigits(2, t.day);
    FixedDigits(2, t.hour);
    FixedDigits(2, t.minute);
    FixedDigits(2, t.second);
    var s := Stamp(t);
    assert s[..8] == DatePart(t) && s[9..15] == TimePart(t) && s[8] == TEE && s[15] == ZULU;
  }

  predicate IsDatabaseName(database: Text) {
    database != [] && forall i | 0 <= i < |database| :: !IsBreak(database[i])
  }

  /** A dump's name gives its database back, dashes or not, and its instant to the second. */
  lemma {:induction false} NameReadsBack(database: Text, now: Instant)
    requires IsDatabaseName(database) && InRange(now)
    ensures ParseName(FileName(database, now)) == Some(Parsed(database, ToSecond(now)))
  {
    StampReads(now);
    hide Stamp, IsStamp, StampInstant;
    NameParts(database, now);
  }

  lemma {:induction false} NameParts(database: Text, now: Instant)
    requires |Stamp(now)| == 16
    ensures var name := FileName(database, now);
            && |name| == |database| + 22 && name[..|database|] == database && name[|database|] == DASH
            && name[|name| - 21..|name| - 5] == Stamp(now) && name[|name| - 5..] == EXTENSION
  {
    hide Stamp;
  }

  // ------------------------------------------------------------------ order

  function DateNumber(t: Instant): nat { 10000 * t.year + 100 * t.month + t.day }

  function TimeNumber(t: Instant): nat { 10000 * t.hour + 100 * t.minute + t.second }

  /** Earlier, to the second: field by field, the largest unit first. */
  predicate Earlier(a: Instant, b: Instant) {
    if a.year != b.year then a.year < b.year
    else if a.month != b.month then a.month < b.month
    else if a.day != b.day then a.day < b.day
    else if a.hour != b.hour then a.hour < b.hour
    else if a.minute != b.minute then a.minute < b.minute
    else a.second < b.second
  }

  lemma {:induction false} EarlierByNumber(a: Instant, b: Instant)
    requires InRange(a) && InRange(b)
    ensures Earlier(a, b)
       <==> DateNumber(a) < DateNumber(b) || (DateNumber(a) == DateNumber(b) && TimeNumber(a) < TimeNumber(b))
    ensures DateNumber(a) == DateNumber(b) <==> a.year == b.year && a.month == b.month && a.day == b.day
  {
  }

  lemma {:induction false} TwoMoreDigits(k: nat, n: nat, m: nat)
    requires m < 100
    ensures S.Fixed(k, n) + S.Fixed(2, m) == S.Fixed(k + 2, 100 * n + m)
  {
    assert (100 * n + m) % 10 == m % 10 && (100 * n + m) / 10 == 10 * n + m / 10;
    assert (10 * n + m / 10) % 10 == m / 10 && (10 * n + m / 10) / 10 == n;
    assert S.Fixed(2, m) == [S.ZERO + m / 10, S.ZERO + m % 10] by {
      assert S.Fixed(1, m / 10) == [S.ZERO + m / 10];
    }
    assert S.Fixed(k + 2, 100 * n + m) == S.Fixed(k + 1, 10 * n + m / 10) + [S.ZERO + m % 10];
    assert S.Fixed(k + 1, 10 * n + m / 10) == S.Fixed(k, n) + [S.ZERO + m / 10];
  }

  lemma {:induction false} PartsAreNumbers(t: Instant)
    requires InRange(t)
    ensures DatePart(t) == S.Fixed(8, DateNumber(t)) && TimePart(t) == S.Fixed(6, TimeNumber(t))
    ensures DateNumber(t) < S.Power(8) && TimeNumber(t) < S.Power(6)
  {
    hide S.Fixed;
    TwoMoreDigits(4, t.year, t.month);
    TwoMoreDigits(6, 100 * t.year + t.month, t.day);
    TwoMoreDigits(2, t.hour, t.minute);
    TwoMoreDigits(4, 100 * t.hour + t.minute, t.second);
    Powers();
    assert S.Power(6) == 1000000 && S.Power(8) == 100000000;
  }

  /** Texts of one length, then anything: the first decides, else the second. */
  lemma {:induction false} LexPair(a: Text, b: Text, u: Text, v: Text)
    requires |a| == |b|
    ensures LexBefore(a + u, b + v) <==> LexBefore(a, b) || (a == b && LexBefore(u, v))
  {
    if a == [] {
      assert a + u == u && b + v == v;
    } else {
      assert (a + u)[1..] == a[1..] + u && (b + v)[1..] == b[1..] + v;
      LexPair(a[1..], b[1..], u, v);
      assert a == [a[0]] + a[1..] && b == [b[0]] + b[1..];
    }
  }

  lemma {:induction false} LexNever(t: Text)
    ensures !LexBefore(t, t)
  {
    LexTotal(t, t);
  }

  /** Within one database, names sort as the instants do. */
  lemma {:induction false} NamesSortByTime(database: Text, a: Instant, b: Instant)
    requires InRange(a) && InRange(b)
    ensures LexBefore(FileName(database, a), FileName(database, b)) <==> Earlier(a, b)
  {
    hide LexBefore, Stamp, S.Fixed, S.Power, Earlier;
    StampIs(a);
    StampIs(b);
    PartsAreNumbers(a);
    PartsAreNumbers(b);
    EarlierByNumber(a, b);
    var (da, db) := (DatePart(a), DatePart(b));
    var (ta, tb) := (TimePart(a), TimePart(b));
    S.FixedOrders(8, DateNumber(a), DateNumber(b));
    S.FixedOrders(6, TimeNumber(a), TimeNumber(b));
    var end := [ZULU] + EXTENSION;
    LexNever(end);
    LexPair(ta, tb, end, end);
    LexNever([TEE]);
    LexPair([TEE], [TEE], ta + end, tb + end);
    LexPair(da, db, [TEE] + (ta + end), [TEE] + (tb + end));
    var head := database + [DASH];
    S.LexPrefix(head, da + ([TEE] + (ta + end)), db + ([TEE] + (tb + end)));
    assert FileName(database, a) == head + (da + ([TEE] + (ta + end)));
    assert FileName(database, b) == head + (db + ([TEE] + (tb + end)));
  }

  // --------------------------------------------- names are dumps and no more

  lemma {:induction false} DigitsRebuild(t: Text)
    requires AllDigits(t)
    ensures NumberOf(t) < S.Power(|t|) && S.Fixed(|t|, NumberOf(t)) == t
  {
    if t != [] {
      assert IsDigit(t[|t| - 1]);
      DigitsRebuild(t[..|t| - 1]);
    }
  }

  lemma {:induction false} StampRebuilds(stamp: Text)
    requires IsStamp(stamp)
    ensures InRange(StampInstant(stamp)) && Stamp(StampInstant(stamp)) == stamp
  {
    DigitsSplit(stamp);
    Powers();
    var t := StampInstant(stamp);
    StampIs(t);
    hide Stamp, S.Fixed, S.Power, NumberOf, AllDigits;
    DigitsRebuild(stamp[..4]);
    DigitsRebuild(stamp[4..6]);
    DigitsRebuild(stamp[6..8]);
    DigitsRebuild(stamp[9..11]);
    DigitsRebuild(stamp[11..13]);
    DigitsRebuild(stamp[13..15]);
    StampPieces(stamp);
  }

  lemma {:induction false} StampPieces(stamp: Text)
    requires |stamp| == 16
    ensures stamp == stamp[..4] + stamp[4..6] + stamp[6..8] + [stamp[8]]
                   + (stamp[9..11] + stamp[11..13] + stamp[13..15]) + [stamp[15]]
  {
  }

  /** The other way round: a name that reads as a dump is the name of that dump. */
  lemma {:induction false} ReadNameIsFileName(name: Text)
    requires ParseName(name).Some?
    ensures var p := ParseName(name).value; InRange(p.createdAt) && FileName(p.database, p.createdAt) == name
  {
    var n := |name|;
    StampRebuilds(name[n - 21..n - 5]);
    hide Stamp, StampInstant, IsStamp;
    assert name == name[..n - 22] + [name[n - 22]] + name[n - 21..n - 5] + name[n - 5..];
  }

  /** So names decide times: of two dumps of a database the later name is the later instant. */
  lemma {:induction false} LaterNameIsLater(a: Text, b: Text)
    requires ParseName(a).Some? && ParseName(b).Some? && ParseName(a).value.database == ParseName(b).value.database
    ensures LexBefore(a, b) <==> Earlier(ParseName(a).value.createdAt, ParseName(b).value.createdAt)
  {
    hide ParseName, LexBefore, Earlier, FileName;
    ReadNameIsFileName(a);
    ReadNameIsFileName(b);
    NamesSortByTime(ParseName(a).value.database, ParseName(a).value.createdAt, ParseName(b).value.createdAt);
  }

  // -------------------------------------------------------------- retention

  /** sort((left, right) => right.name.localeCompare(left.name)): newest name first. */
  function SortedDown(names: seq<Text>): seq<Text> {
    if names == [] then [] else InsertDown(SortedDown(names[1..]), names[0])
  }

  function InsertDown(sorted: seq<Text>, name: Text): seq<Text> {
    if sorted == [] || !LexBefore(name, sorted[0]) then [name] + sorted
    else [sorted[0]] + InsertDown(sorted[1..], name)
  }

  /** Newest first, none twice. */
  ghost predicate Descends(names: seq<Text>) {
    forall i, j | 0 <= i < j < |names| :: LexBefore(names[j], names[i])
  }

  lemma {:induction false} InsertDownHolds(sorted: seq<Text>, name: Text, n: Text)
    ensures n in InsertDown(sorted, name) <==> n == name || n in sorted
  {
    if sorted != [] && LexBefore(name, sorted[0]) {
      assert sorted == [sorted[0]] + sorted[1..];
      InsertDownHolds(sorted[1..], name, n);
    }
  }

  lemma {:induction false} InsertDownDescends(sorted: seq<Text>, name: Text)
    requires Descends(sorted) && name !in sorted
    ensures Descends(InsertDown(sorted, name))
  {
    hide LexBefore;
    if sorted != [] {
      var rest := sorted[1..];
      assert sorted == [sorted[0]] + rest;
      assert Descends(rest) by { DescendsPart(sorted, 1); }
      LexTotal(name, sorted[0]);
      if LexBefore(name, sorted[0]) {
        InsertDownDescends(rest, name);
        var more := InsertDown(rest, name);
        forall j | 0 <= j < |more| ensures LexBefore(more[j], sorted[0]) {
          InsertDownHolds(rest, name, more[j]);
          if more[j] != name {
            var k :| 0 <= k < |rest| && rest[k] == more[j];
            assert sorted[k + 1] == more[j];
          }
        }
      } else {
        forall j | 0 <= j < |sorted| ensures LexBefore(sorted[j], name) {
          if j > 0 {
            LexTransitive(sorted[j], sorted[0], name);
          }
        }
      }
    }
  }

  lemma {:induction false} DescendsPart(names: seq<Text>, n: nat)
    requires Descends(names) && n <= |names|
    ensures Descends(names[n..]) && Descends(names[..n])
  {
    hide LexBefore;
  }

  lemma {:induction false} SortedDownHolds(names: seq<Text>, n: Text)
    ensures n in SortedDown(names) <==> n in names
  {
    if names != [] {
      assert names == [names[0]] + names[1..];
      SortedDownHolds(names[1..], n);
      InsertDownHolds(SortedDown(names[1..]), names[0], n);
    }
  }

  lemma {:induction false} HeadDistinct(names: seq<Text>)
    requires Distinct(names) && names != []
    ensures names[0] !in names[1..] && Distinct(names[1..])
  {
    forall k | 0 <= k < |names| - 1 ensures names[1..][k] != names[0] {
      assert names[1..][k] == names[k + 1];
    }
  }

  lemma {:induction false} SortedDownDescends(names: seq<Text>)
    requires Distinct(names)
    ensures Descends(SortedDown(names))
  {
    if names != [] {
      var rest := names[1..];
      HeadDistinct(names);
      SortedDownDescends(rest);
      SortedDownHolds(rest, names[0]);
      InsertDownDescends(SortedDown(rest), names[0]);
    }
  }

  lemma {:induction false} DescendsIsDistinct(names: seq<Text>)
    requires Descends(names)
    ensures |SetOf(names)| == |names|
  {
    if names != [] {
      var rest := names[1..];
      DescendsPart(names, 1);
      DescendsIsDistinct(rest);
      assert names == [names[0]] + rest;
      assert SetOf(names) == {names[0]} + SetOf(rest);
      if names[0] in rest {
        var k :| 0 <= k < |rest| && rest[k] == names[0];
        assert LexBefore(names[k + 1], names[0]);
        LexNever(names[0]);
      }
    }
  }

  /** expiredBackups */
  function Expired(files: seq<Text>, keep: nat): seq<Text> {
    var sorted := SortedDown(files);
    if |sorted| <= keep then [] else sorted[keep..]
  }

  /** A dump of a database, or with no database named, of any. */
  predicate IsDumpOf(name: Text, database: Text) {
    ParseName(name).Some? && (database == [] || ParseName(name).value.database == database)
  }

  function DumpsOf(names: set<Text>, database: Text): set<Text> {
    set n | n in names && IsDumpOf(n, database)
  }

  /** Exactly the newest `keep` dumps stay, or all there are. */
  ghost predicate NewestKept(dumps: set<Text>, kept: set<Text>, keep: nat) {
    && kept <= dumps
    && |kept| == (if |dumps| < keep then |dumps| else keep)
    && forall gone, stays | gone in dumps - kept && stays in kept :: LexBefore(gone, stays)
  }

  function NewerThan(dumps: set<Text>, name: Text): set<Text> {
    set n | n in dumps && LexBefore(name, n)
  }

  lemma {:induction false} ExpiredAreOldest(files: seq<Text>, keep: nat)
    requires Distinct(files)
    ensures SetOf(Expired(files, keep)) <= SetOf(files)
    ensures NewestKept(SetOf(files), SetOf(files) - SetOf(Expired(files, keep)), keep)
  {
    hide LexBefore, SortedDown;
    var sorted := SortedDown(files);
    SortedDownDescends(files);
    forall n ensures n in sorted <==> n in files {
      SortedDownHolds(files, n);
    }
    assert SetOf(sorted) == SetOf(files);
    DescendsIsDistinct(sorted);
    if |sorted| > keep {
      SplitKeeps(sorted, keep);
    } else {
      assert SetOf(files) - SetOf([]) == SetOf(files);
    }
  }

  lemma {:induction false} SplitKeeps(sorted: seq<Text>, keep: nat)
    requires Descends(sorted) && keep <= |sorted|
    ensures SetOf(sorted) - SetOf(sorted[keep..]) == SetOf(sorted[..keep])
    ensures |SetOf(sorted[..keep])| == keep
    ensures forall gone, stays | gone in SetOf(sorted[keep..]) && stays in SetOf(sorted[..keep]) :: LexBefore(gone, stays)
  {
    hide LexBefore;
    DescendsPart(sorted, keep);
    DescendsIsDistinct(sorted[..keep]);
    forall gone, stays | gone in sorted[keep..] && stays in sorted[..keep] ensures LexBefore(gone, stays) && gone != stays {
      var i :| 0 <= i < keep && sorted[i] == stays;
      var j :| keep <= j < |sorted| && sorted[j] == gone;
      LexNever(gone);
    }
    assert sorted == sorted[..keep] + sorted[keep..];
  }

  /** A dump stays exactly when fewer than `keep` are newer: one made by a slow clock may not. */
  lemma {:induction false} StaysUnlessOld(dumps: set<Text>, kept: set<Text>, keep: nat, name: Text)
    requires NewestKept(dumps, kept, keep) && name in dumps
    ensures name in kept <==> |NewerThan(dumps, name)| < keep
  {
    hide LexBefore;
    var newer := NewerThan(dumps, name);
    if name in kept {
      forall n | n in newer ensures n in kept {
        if n !in kept {
          LexTotal(n, name);
        }
      }
      LexNever(name);
      assert newer <= kept - {name};
      SubsetIsSmaller(newer, kept - {name});
    } else {
      assert kept <= newer;
      SubsetIsSmaller(kept, newer);
      if |dumps| < keep {
        SubsetIsSmaller(kept + {name}, dumps);
      }
    }
  }

  /** The dumps of a database made after one of them: the newer ones, told by their instants. */
  lemma {:induction false} NewerIsLater(names: set<Text>, database: Text, name: Text)
    requires database != [] && IsDumpOf(name, database)
    ensures NewerThan(DumpsOf(names, database), name)
         == set n | n in DumpsOf(names, database) && Earlier(ParseName(name).value.createdAt, ParseName(n).value.createdAt)
  {
    forall n | n in DumpsOf(names, database)
      ensures LexBefore(name, n) <==> Earlier(ParseName(name).value.createdAt, ParseName(n).value.createdAt)
    {
      LaterNameIsLater(name, n);
    }
    hide LexBefore, ParseName, Earlier;
  }

  ghost predicate SameDatabase(a: Text, b: Text) {
    ParseName(a).Some? && ParseName(b).Some? && ParseName(a).value.database == ParseName(b).value.database
  }

  const SAMPLE: Instant := Instant(2026, 10, 21, 3, 4, 5, 678)

  /** By example: the name of a dump of my_app. */
  lemma {:induction false} NameReads()
    ensures FileName(Ascii("my_app"), SAMPLE)
         == Ascii("my_app") + Ascii("-") + (Ascii("20261021") + Ascii("T") + Ascii("030405") + Ascii("Z")) + Ascii(".dump")
  {
    SampleInRange();
    StampIs(SAMPLE);
    SampleDate();
    SampleTime();
    assert Ascii("-") == [DASH] && Ascii("T") == [TEE] && Ascii("Z") == [ZULU];
    hide Stamp, DatePart, TimePart, Ascii, Iso;
  }

  lemma {:induction false} SampleInRange()
    ensures InRange(SAMPLE)
  {
  }

  lemma {:induction false} SampleDate()
    ensures DatePart(SAMPLE) == Ascii("20261021")
  {
    SampleYear();
    SampleMonthDay();
    AsciiJoins("2026", "10");
    AsciiJoins("202610", "21");
    assert "2026" + "10" == "202610" && "202610" + "21" == "20261021";
    hide Ascii, S.Fixed;
  }

  lemma {:induction false} SampleYear()
    ensures S.Fixed(4, 2026) == Ascii("2026")
  {
    assert S.Fixed(0, 0) == [];
    assert S.Fixed(1, 2) == [50];
    assert S.Fixed(2, 20) == [50, 48];
    assert S.Fixed(3, 202) == [50, 48, 50];
    assert S.Fixed(4, 2026) == [50, 48, 50, 54];
    hide S.Fixed;
    assert Ascii("2026") == [50, 48, 50, 54];
  }

  lemma {:induction false} SampleMonthDay()
    ensures S.Fixed(2, 10) == Ascii("10") && S.Fixed(2, 21) == Ascii("21")
  {
    assert S.Fixed(0, 0) == [] && S.Fixed(1, 1) == [49] && S.Fixed(1, 2) == [50];
    assert S.Fixed(2, 10) == [49, 48] && S.Fixed(2, 21) == [50, 49];
    hide S.Fixed;
    assert Ascii("10") == [49, 48] && Ascii("21") == [50, 49];
  }

  lemma {:induction false} SampleTime()
    ensures TimePart(SAMPLE) == Ascii("030405")
  {
    SampleDigits();
    AsciiJoins("03", "04");
    AsciiJoins("0304", "05");
    assert "03" + "04" == "0304" && "0304" + "05" == "030405";
    hide Ascii, S.Fixed;
  }

  lemma {:induction false} SampleDigits()
    ensures S.Fixed(2, 3) == Ascii("03") && S.Fixed(2, 4) == Ascii("04") && S.Fixed(2, 5) == Ascii("05")
  {
    assert S.Fixed(0, 0) == [] && S.Fixed(1, 0) == [48];
    assert S.Fixed(2, 3) == [48, 51] && S.Fixed(2, 4) == [48, 52] && S.Fixed(2, 5) == [48, 53];
    hide S.Fixed;
    assert Ascii("03") == [48, 51] && Ascii("04") == [48, 52] && Ascii("05") == [48, 53];
  }

  /** Two names of one database are one exactly if the instants are the same to the second. */
  lemma {:induction false} SameSecondSameName(database: Text, a: Instant, b: Instant)
    requires InRange(a) && InRange(b)
    ensures FileName(database, a) == FileName(database, b) <==> ToSecond(a) == ToSecond(b)
  {
    StampReads(a);
    StampReads(b);
    StampIs(a);
    StampIs(b);
    hide Stamp, StampInstant, IsStamp, S.Fixed, S.Power;
    if FileName(database, a) == FileName(database, b) {
      StampOfName(database, a);
      StampOfName(database, b);
    }
  }

  lemma {:induction false} StampOfName(database: Text, now: Instant)
    ensures FileName(database, now)[|database| + 1..] == Stamp(now) + EXTENSION
    ensures (Stamp(now) + EXTENSION)[..|Stamp(now)|] == Stamp(now)
  {
    hide Stamp;
  }

  datatype Result =
    | Dumped(name: Text, removed: seq<Text>)
    | Refused
    | DumpFailed

  function Without(names: seq<Text>, name: Text): seq<Text> {
    if names == [] then []
    else if names[0] == name then Without(names[1..], name)
    else [names[0]] + Without(names[1..], name)
  }

  lemma {:induction false} WithoutIn(names: seq<Text>, name: Text, n: Text)
    ensures n in Without(names, name) <==> n in names && n != name
  {
    if names != [] {
      assert names == [names[0]] + names[1..];
      WithoutIn(names[1..], name, n);
    }
  }

  lemma {:induction false} WithoutHolds(names: seq<Text>, name: Text)
    requires Distinct(names)
    ensures SetOf(Without(names, name)) == SetOf(names) - {name}
    ensures Distinct(Without(names, name))
  {
    forall n ensures n in Without(names, name) <==> n in names && n != name {
      WithoutIn(names, name, n);
    }
    if names != [] {
      HeadDistinct(names);
      WithoutHolds(names[1..], name);
      var rest := Without(names[1..], name);
      forall i | 0 <= i < |rest| ensures rest[i] != names[0] {
        WithoutIn(names[1..], name, rest[i]);
      }
    }
  }

  /** As many stay of all databases' dumps together, and of each database its newest. */
  ghost predicate NewestOfEachKept(dumps: set<Text>, kept: set<Text>, keep: nat) {
    && kept <= dumps
    && |kept| == (if |dumps| < keep then |dumps| else keep)
    && forall gone, stays | gone in dumps - kept && stays in kept && SameDatabase(gone, stays) :: LexBefore(gone, stays)
  }

  /**
   * A directory after retention: the removed dumps gone, the newest there, all else as it
   * was. With no database named, all dumps there are count as one lot.
   */
  ghost predicate Retained(all: set<Text>, after: set<Text>, removed: set<Text>, database: Text, keep: nat) {
    && after == all - removed && removed <= DumpsOf(all, database)
    && NewestOfEachKept(DumpsOf(all, database), DumpsOf(after, database), keep)
  }

  /** One named database's dumps are told apart by time alone. */
  lemma {:induction false} OneDatabaseKeepsNewest(dumps: set<Text>, kept: set<Text>, keep: nat, database: Text)
    requires database != [] && NewestOfEachKept(dumps, kept, keep)
    requires forall n | n in dumps :: IsDumpOf(n, database)
    ensures NewestKept(dumps, kept, keep)
  {
    hide ParseName, LexBefore;
  }

  /**
   * Retention by time: a dump, the new one included, stays exactly when fewer than `keep`
   * of its database were made after it. One made by a clock that runs behind may not stay.
   */
  lemma {:induction false} KeptUnlessOld(
    all: set<Text>, after: set<Text>, removed: set<Text>, database: Text, keep: nat, name: Text)
    requires database != [] && Retained(all, after, removed, database, keep) && name in DumpsOf(all, database)
    ensures name in after
        <==> |set n | n in DumpsOf(all, database)
                    && Earlier(ParseName(name).value.createdAt, ParseName(n).value.createdAt)| < keep
  {
    NewerIsLater(all, database, name);
    OneDatabaseKeepsNewest(DumpsOf(all, database), DumpsOf(after, database), keep, database);
    hide ParseName, Earlier;
    assert name in after <==> name in DumpsOf(after, database);
    StaysUnlessOld(DumpsOf(all, database), DumpsOf(after, database), keep, name);
  }

  /** By example: made by a clock that runs behind, a dump goes as soon as it is there. */
  lemma {:induction false} LateDumpGoes(
    database: Text, a: Instant, b: Instant, after: set<Text>, removed: set<Text>)
    requires IsDatabaseName(database) && InRange(a) && InRange(b) && Earlier(ToSecond(a), ToSecond(b))
    requires Retained({FileName(database, b)} + {FileName(database, a)}, after, removed, database, 1)
    ensures FileName(database, a) !in after
  {
    var all := {FileName(database, b)} + {FileName(database, a)};
    NameReadsBack(database, a);
    NameReadsBack(database, b);
    hide FileName, ParseName, Retained, Earlier;
    KeptUnlessOld(all, after, removed, database, 1, FileName(database, a));
    var later := set n | n in DumpsOf(all, database)
                         && Earlier(ParseName(FileName(database, a)).value.createdAt, ParseName(n).value.createdAt);
    assert FileName(database, b) in later;
    assert |later| >= 1;
  }

  const NOON: Instant := Instant(2026, 1, 1, 12, 0, 0, 1)

  /** By example: a failed dump takes one with it that was made a millisecond before. */
  lemma {:induction false} FailedDumpTakesTwin(database: Text)
    ensures var next := NOON.(ms := 2);
            next != NOON && {FileName(database, NOON)} - {FileName(database, next)} == {}
  {
    SameSecondSameName(database, NOON, NOON.(ms := 2));
  }

  /** By example: with no database named, a dump of either of two databases has to go. */
  lemma {:induction false} NamelessTakesOthers(
    a: Text, b: Text, now: Instant, after: set<Text>, removed: set<Text>)
    requires IsDatabaseName(a) && IsDatabaseName(b) && a != b && InRange(now)
    requires Retained({FileName(a, now)} + {FileName(b, now)}, after, removed, [], 1)
    ensures FileName(a, now) !in after || FileName(b, now) !in after
  {
    var all := {FileName(a, now)} + {FileName(b, now)};
    NameReadsBack(a, now);
    NameReadsBack(b, now);
    hide FileName, ParseName, LexBefore;
    assert DumpsOf(all, []) == all && DumpsOf(after, []) == after;
    assert after != all;
  }

  lemma {:induction false} RemovedAreRetained(all: set<Text>, existing: seq<Text>, database: Text, keep: nat)
    requires Distinct(existing) && SetOf(existing) == DumpsOf(all, database)
    ensures var removed := SetOf(Expired(existing, keep)); Retained(all, all - removed, removed, database, keep)
  {
    hide ParseName, LexBefore, Expired;
    ExpiredAreOldest(existing, keep);
    var removed := SetOf(Expired(existing, keep));
    hide SetOf, IsDumpOf, SameDatabase;
    assert DumpsOf(all - removed, database) == DumpsOf(all, database) - removed;
  }

  /** A backup directory: its file names, in whatever order readdir gives them. */
  class BackupDirectory {
    var entries: seq<Text>

    ghost predicate Valid()
      reads this
    {
      Distinct(entries)
    }

    constructor (entries: seq<Text>)
      requires Distinct(entries)
      ensures Valid() && this.entries == entries
    {
      this.entries := entries;
    }

    /** listBackups: one database's dumps, or all there are, newest first within a database. */
    method ListBackups(database: Text) returns (files: seq<Text>)
      requires Valid()
      ensures Distinct(files) && SetOf(files) == DumpsOf(SetOf(entries), database)
      ensures database != [] ==> Descends(files)
      ensures forall i, j | 0 <= i < j < |files| && SameDatabase(files[i], files[j]) :: LexBefore(files[j], files[i])
    {
      var found: seq<Text> := [];
      hide ParseName, LexBefore;
      for i := 0 to |entries|
        invariant Distinct(found)
        invariant forall n :: n in found <==> n in entries[..i] && IsDumpOf(n, database)
      {
        assert entries[..i + 1] == entries[..i] + [entries[i]];
        if IsDumpOf(entries[i], database) {
          assert entries[i] !in entries[..i];
          found := found + [entries[i]];
        }
      }
      assert entries[..|entries|] == entries;
      SortedDownDescends(found);
      files := SortedDown(found);
      DescendsAreDistinct(files);
      forall n ensures n in files <==> n in found {
        SortedDownHolds(found, n);
      }
    }

    method Remove(name: Text)
      requires Valid()
      modifies this
      ensures Valid() && SetOf(entries) == SetOf(old(entries)) - {name}
    {
      WithoutHolds(entries, name);
      entries := Without(entries, name);
    }

    /**
     * createBackup: `dumps` says whether pg_dump succeeds. Of the database's dumps exactly
     * the newest `keep` stay, and no other file is touched; a failed dump takes its own
     * target with it, even if a dump of the same second lay there. A URL may name no database.
     */
    method CreateBackup(database: Text, now: Instant, keep: int, dumps: bool) returns (result: Result)
      requires Valid()
      modifies this
      ensures Valid()
      ensures result.Refused? <==> keep < 1
      ensures result.Refused? ==> entries == old(entries)
      ensures result.DumpFailed? <==> keep >= 1 && !dumps
      ensures result.DumpFailed? ==> SetOf(entries) == SetOf(old(entries)) - {FileName(database, now)}
      ensures result.Dumped? ==>
                && result.name == FileName(database, now)
                && Retained(SetOf(old(entries)) + {result.name}, SetOf(entries), SetOf(result.removed), database, keep)
    {
      hide ParseName, LexBefore, Stamp, DumpsOf, Retained;
      if keep < 1 {
        return Refused;
      }
      var name := FileName(database, now);
      if !dumps {
        Remove(name);
        return DumpFailed;
      }
      if name !in entries {
        entries := entries + [name];
      }
      assert SetOf(entries) == SetOf(old(entries)) + {name};
      var removed := Retain(database, keep);
      return Dumped(name, removed);
    }

    /** The dumps past the newest `keep` go, one by one. */
    method Retain(database: Text, keep: nat) returns (removed: seq<Text>)
      requires Valid()
      modifies this
      ensures Valid()
      ensures Retained(SetOf(old(entries)), SetOf(entries), SetOf(removed), database, keep)
    {
      hide DumpsOf, Retained, Expired, Descends, Distinct;
      var existing := ListBackups(database);
      RemovedAreRetained(SetOf(entries), existing, database, keep);
      removed := Expired(existing, keep);
      for i := 0 to |removed|
        invariant Valid() && SetOf(entries) == SetOf(old(entries)) - SetOf(removed[..i])
      {
        assert SetOf(removed[..i + 1]) == SetOf(removed[..i]) + {removed[i]} by { SetOfPart(removed, i); }
        Remove(removed[i]);
      }
      assert removed[..|removed|] == removed;
    }
  }

  lemma {:induction false} SetOfPart(names: seq<Text>, i: nat)
    requires i < |names|
    ensures SetOf(names[..i + 1]) == SetOf(names[..i]) + {names[i]}
  {
    assert names[..i + 1] == names[..i] + [names[i]];
  }

  lemma {:induction false} DescendsAreDistinct(names: seq<Text>)
    requires Descends(names)
    ensures Distinct(names)
  {
    forall i, j | 0 <= i < j < |names| ensures names[i] != names[j] {
      LexNever(names[i]);
    }
  }
}
