/** The object keys of a storage sink, whose text order is their order. */
module StorageKeys {
  import opened Common

  const SLASH: Unit := '/' as int
  const ZERO: Unit := '0' as int
  const EXTENSION: Text := Ascii(".jsonl")
  const WIDTH: nat := 12
  const LIMIT: nat := 1000000000000

  /** String(n) of a whole number. */
  function Decimal(n: nat): (t: Text)
    ensures |t| >= 1
  {
    if n < 10 then [ZERO + n] else Decimal(n / 10) + [ZERO + n % 10]
  }

  function Zeros(k: nat): (t: Text)
    ensures |t| == k
  {
    if k == 0 then [] else Zeros(k - 1) + [ZERO]
  }

  /** padStart(12, '0'): longer texts stay as they are. */
  function Pad(n: nat): Text {
    if |Decimal(n)| < WIDTH then Zeros(WIDTH - |Decimal(n)|) + Decimal(n) else Decimal(n)
  }

  /** replace(/\/+$/, ''): the slashes at the end go. */
  function StripSlashes(prefix: Text): Text {
    if prefix != [] && prefix[|prefix| - 1] == SLASH then StripSlashes(prefix[..|prefix| - 1]) else prefix
  }

  function Folder(prefix: Text, tenantId: Text): Text {
    StripSlashes(prefix) + [SLASH] + tenantId + [SLASH]
  }

  function FileName(from: nat, to: nat): Text {
    Pad(from) + [DASH] + Pad(to) + EXTENSION
  }

  /** AuditSinkDelivery.storageKey */
  function StorageKey(prefix: Text, tenantId: Text, from: nat, to: nat): Text {
    Folder(prefix, tenantId) + FileName(from, to)
  }

  // --------------------------------------------------------- fixed width

  /** The last k digits of n. */
  function Fixed(k: nat, n: nat): (t: Text)
    ensures |t| == k
  {
    if k == 0 then [] else Fixed(k - 1, n / 10) + [ZERO + n % 10]
  }

  function Power(k: nat): (p: nat)
    ensures p > 0
  {
    if k == 0 then 1 else 10 * Power(k - 1)
  }

  lemma {:induction false} FixedOfZero(k: nat)
    ensures Fixed(k, 0) == Zeros(k)
  {
    if k > 0 {
      FixedOfZero(k - 1);
    }
  }

  lemma {:induction false} FixedIsPadded(k: nat, n: nat)
    requires n < Power(k) && k > 0
    ensures |Decimal(n)| <= k && Fixed(k, n) == Zeros(k - |Decimal(n)|) + Decimal(n)
  {
    if n < 10 {
      FixedOfZero(k - 1);
    } else {
      assert k > 1;
      FixedIsPadded(k - 1, n / 10);
    }
  }

  lemma {:induction false} TwelveDigits()
    ensures Power(WIDTH) == LIMIT
  {
    assert Power(4) == 10000;
    assert Power(8) == 100000000;
  }

  lemma {:induction false} PadIsFixed(n: nat)
    requires n < LIMIT
    ensures Pad(n) == Fixed(WIDTH, n) && |Pad(n)| == WIDTH
  {
    hide Power, Fixed, Zeros, Decimal;
    TwelveDigits();
    FixedIsPadded(WIDTH, n);
  }

  // --------------------------------------------------------------- order

  lemma {:induction false} LexSnoc(a: Text, b: Text, x: Unit, y: Unit)
    requires |a| == |b|
    ensures LexBefore(a + [x], b + [y]) <==> LexBefore(a, b) || (a == b && x < y)
  {
    if a == [] {
      assert a + [x] == [x] && b + [y] == [y];
    } else {
      LexSnoc(a[1..], b[1..], x, y);
      assert (a + [x])[1..] == a[1..] + [x] && (b + [y])[1..] == b[1..] + [y];
      assert a == [a[0]] + a[1..] && b == [b[0]] + b[1..];
    }
  }

  lemma {:induction false} LexPrefix(p: Text, a: Text, b: Text)
    ensures LexBefore(p + a, p + b) <==> LexBefore(a, b)
  {
    if p == [] {
      assert p + a == a && p + b == b;
    } else {
      LexPrefix(p[1..], a, b);
      assert (p + a)[1..] == p[1..] + a && (p + b)[1..] == p[1..] + b;
    }
  }

  lemma {:induction false} LexLonger(a: Text, b: Text, u: Text, v: Text)
    requires |a| == |b| && LexBefore(a, b)
    ensures LexBefore(a + u, b + v)
  {
    assert (a + u)[1..] == a[1..] + u && (b + v)[1..] == b[1..] + v;
    if a[0] == b[0] {
      LexLonger(a[1..], b[1..], u, v);
    }
  }

  lemma {:induction false} FixedOrders(k: nat, a: nat, b: nat)
    requires a < Power(k) && b < Power(k)
    ensures LexBefore(Fixed(k, a), Fixed(k, b)) <==> a < b
    ensures Fixed(k, a) == Fixed(k, b) <==> a == b
  {
    if k > 0 {
      FixedOrders(k - 1, a / 10, b / 10);
      LexSnoc(Fixed(k - 1, a / 10), Fixed(k - 1, b / 10), ZERO + a % 10, ZERO + b % 10);
      assert Fixed(k, a)[..k - 1] == Fixed(k - 1, a / 10) && Fixed(k, b)[..k - 1] == Fixed(k - 1, b / 10);
      assert Fixed(k, a)[k - 1] == ZERO + a % 10 && Fixed(k, b)[k - 1] == ZERO + b % 10;
    }
  }

  /** Below 10^12 a padded number decides the number, and text order is number order. */
  lemma {:induction false} PadOrders(a: nat, b: nat)
    requires a < LIMIT && b < LIMIT
    ensures LexBefore(Pad(a), Pad(b)) <==> a < b
    ensures Pad(a) == Pad(b) <==> a == b
    ensures |Pad(a)| == WIDTH && |Pad(b)| == WIDTH
  {
    hide Power, Fixed, Pad, LexBefore;
    TwelveDigits();
    PadIsFixed(a);
    PadIsFixed(b);
    FixedOrders(WIDTH, a, b);
  }

  lemma {:induction false} DecimalOfPower(k: nat)
    ensures |Decimal(Power(k))| == k + 1 && Decimal(Power(k))[0] == ZERO + 1
    ensures k > 0 ==> |Decimal(Power(k) - 1)| == k && Decimal(Power(k) - 1)[0] == ZERO + 9
  {
    if k > 0 {
      DecimalOfPower(k - 1);
      assert Power(k) / 10 == Power(k - 1) && (k > 1 ==> (Power(k) - 1) / 10 == Power(k - 1) - 1);
    }
  }

  /** The bound is sharp: from 10^12 on, thirteen digits sort before twelve. */
  lemma {:induction false} PadBreaksAtLimit()
    ensures LexBefore(Pad(LIMIT), Pad(LIMIT - 1))
  {
    TwelveDigits();
    hide Power, Decimal;
    DecimalOfPower(WIDTH);
  }

  // ---------------------------------------------------------------- keys

  lemma {:induction false} FileNamesOrder(f: nat, t: nat, g: nat, u: nat)
    requires f < LIMIT && t < LIMIT && g < LIMIT && u < LIMIT
    ensures f < g ==> LexBefore(FileName(f, t), FileName(g, u))
    ensures FileName(f, t) == FileName(g, u) <==> f == g && t == u
    ensures |FileName(f, t)| == 31
  {
    hide Pad, LexBefore;
    PadOrders(f, g);
    PadOrders(t, u);
    FileNameSplits(f, t);
    FileNameSplits(g, u);
    if f < g {
      LexLonger(Pad(f), Pad(g), [DASH] + Pad(t) + EXTENSION, [DASH] + Pad(u) + EXTENSION);
    }
  }

  lemma {:induction false} FileNameSplits(from: nat, to: nat)
    requires |Pad(from)| == WIDTH && |Pad(to)| == WIDTH
    ensures FileName(from, to) == Pad(from) + ([DASH] + Pad(to) + EXTENSION)
    ensures FileName(from, to)[..WIDTH] == Pad(from)
    ensures FileName(from, to)[WIDTH + 1..25] == Pad(to)
    ensures |FileName(from, to)| == 31
  {
    hide Pad;
  }

  /** A key decides its range, whatever the prefixes and tenants. */
  lemma {:induction false} KeyDecidesRange(p: Text, a: Text, f: nat, t: nat, q: Text, b: Text, g: nat, u: nat)
    requires f < LIMIT && t < LIMIT && g < LIMIT && u < LIMIT
    requires StorageKey(p, a, f, t) == StorageKey(q, b, g, u)
    ensures f == g && t == u
  {
    hide FileName, Folder;
    FileNamesOrder(f, t, g, u);
    FileNamesOrder(g, u, f, t);
    var x, y := StorageKey(p, a, f, t), StorageKey(q, b, g, u);
    assert x[|x| - 31..] == FileName(f, t) && y[|y| - 31..] == FileName(g, u);
  }

  /** In one folder, keys sort as their ranges do. */
  lemma {:induction false} KeysOrder(p: Text, tenantId: Text, f: nat, t: nat, g: nat, u: nat)
    requires f < g < LIMIT && t < LIMIT && u < LIMIT
    ensures LexBefore(StorageKey(p, tenantId, f, t), StorageKey(p, tenantId, g, u))
  {
    hide FileName, Folder, LexBefore;
    FileNamesOrder(f, t, g, u);
    LexPrefix(Folder(p, tenantId), FileName(f, t), FileName(g, u));
  }

  // -------------------------------------------------------------- folders

  /** A key directly in a folder, in none below it. */
  predicate InFolder(key: Text, folder: Text) {
    folder <= key && SLASH !in key[|folder|..]
  }

  lemma {:induction false} DecimalNoSlash(n: nat)
    ensures SLASH !in Decimal(n)
  {
    if n >= 10 {
      DecimalNoSlash(n / 10);
    }
  }

  lemma {:induction false} ZerosNoSlash(k: nat)
    ensures SLASH !in Zeros(k)
  {
    if k > 0 {
      ZerosNoSlash(k - 1);
    }
  }

  lemma {:induction false} FileNameNoSlash(from: nat, to: nat)
    ensures SLASH !in FileName(from, to)
  {
    hide Decimal, Zeros;
    DecimalNoSlash(from);
    DecimalNoSlash(to);
    ZerosNoSlash(if |Decimal(from)| < WIDTH then WIDTH - |Decimal(from)| else 0);
    ZerosNoSlash(if |Decimal(to)| < WIDTH then WIDTH - |Decimal(to)| else 0);
    ExtensionNoSlash();
  }

  lemma {:induction false} ExtensionNoSlash()
    ensures SLASH !in EXTENSION
  {
    var s := ".jsonl";
    assert forall i | 0 <= i < |s| :: EXTENSION[i] == s[i] as int && s[i] != '/';
  }

  lemma {:induction false} NoSlashFrom(key: Text, n: nat, k: nat)
    requires n <= k < |key|
    ensures SLASH !in key[n..] ==> key[k] != SLASH
  {
    assert key[n..][k - n] == key[k];
  }

  /** A range's key lies directly in one folder: that of its prefix and tenant. */
  lemma {:induction false} FolderIs(p: Text, a: Text, prefix: Text, tenantId: Text, from: nat, to: nat)
    ensures InFolder(StorageKey(prefix, tenantId, from, to), Folder(p, a)) <==> Folder(p, a) == Folder(prefix, tenantId)
  {
    var key, own, folder := StorageKey(prefix, tenantId, from, to), Folder(prefix, tenantId), Folder(p, a);
    FileNameNoSlash(from, to);
    assert own[|own| - 1] == SLASH && folder[|folder| - 1] == SLASH;
    hide FileName, Folder;
    assert key[|own|..] == FileName(from, to) && key[..|own|] == own;
    if |folder| < |own| {
      NoSlashFrom(key, |folder|, |own| - 1);
    } else if |own| < |folder| <= |key| {
      NoSlashFrom(key, |own|, |folder| - 1);
    }
  }

  ghost predicate OnlySlashes(t: Text) {
    forall i | 0 <= i < |t| :: t[i] == SLASH
  }

  /** Texts that are one but for slashes at their ends. */
  ghost predicate SameButSlashes(p: Text, q: Text) {
    (p <= q && OnlySlashes(q[|p|..])) || (q <= p && OnlySlashes(p[|q|..]))
  }

  /** What is left of a prefix: all of it but the slashes at its end. */
  lemma {:induction false} StripIs(p: Text)
    ensures StripSlashes(p) <= p && OnlySlashes(p[|StripSlashes(p)|..])
    ensures StripSlashes(p) != [] ==> StripSlashes(p)[|StripSlashes(p)| - 1] != SLASH
  {
    if p != [] && p[|p| - 1] == SLASH {
      var front, s := p[..|p| - 1], StripSlashes(p[..|p| - 1]);
      StripIs(front);
      assert p[|s|..] == front[|s|..] + [SLASH];
    }
  }

  lemma {:induction false} StripMore(p: Text, slashes: Text)
    requires OnlySlashes(slashes)
    ensures StripSlashes(p + slashes) == StripSlashes(p)
  {
    if slashes == [] {
      assert p + slashes == p;
    } else {
      var front := slashes[..|slashes| - 1];
      assert (p + slashes)[..|p + slashes| - 1] == p + front;
      StripMore(p, front);
    }
  }

  lemma {:induction false} StripDecides(p: Text, q: Text)
    ensures StripSlashes(p) == StripSlashes(q) <==> SameButSlashes(p, q)
  {
    StripIs(p);
    StripIs(q);
    if p <= q && OnlySlashes(q[|p|..]) {
      assert q == p + q[|p|..];
      StripMore(p, q[|p|..]);
    } else if q <= p && OnlySlashes(p[|q|..]) {
      assert p == q + p[|q|..];
      StripMore(q, p[|q|..]);
    }
    if StripSlashes(p) == StripSlashes(q) {
      AlikeBehind(StripSlashes(p), p, q);
    }
  }

  lemma {:induction false} AlikeBehind(s: Text, p: Text, q: Text)
    requires s <= p && s <= q && OnlySlashes(p[|s|..]) && OnlySlashes(q[|s|..])
    ensures SameButSlashes(p, q)
    decreases if |p| <= |q| then 0 else 1
  {
    if |p| <= |q| {
      forall i | 0 <= i < |p| ensures p[i] == q[i] {
        assert i >= |s| ==> p[i] == p[|s|..][i - |s|] && q[i] == q[|s|..][i - |s|];
      }
      forall i | 0 <= i < |q[|p|..]| ensures q[|p|..][i] == SLASH {
        assert q[|p|..][i] == q[|s|..][|p| + i - |s|];
      }
    } else {
      AlikeBehind(s, q, p);
    }
  }

  /** Slashes at the end of a prefix make no other folder. */
  lemma {:induction false} TrailingSlash(p: Text, tenantId: Text)
    ensures Folder(p + [SLASH], tenantId) == Folder(p, tenantId)
  {
    StripMore(p, [SLASH]);
  }

  /** Behind the last slash but one a folder's name is its tenant's id. */
  lemma {:induction false} SplitsAtLast(s: Text, a: Text, t: Text, b: Text)
    requires SLASH !in a && SLASH !in b && s + [SLASH] + a == t + [SLASH] + b
    ensures s == t && a == b
  {
    var x := s + [SLASH] + a;
    assert a != [] ==> a[|a| - 1] in a && x[|x| - 1] == a[|a| - 1];
    assert b != [] ==> b[|b| - 1] in b && x[|x| - 1] == b[|b| - 1];
    if a == [] {
      assert x[..|x| - 1] == s && x[..|x| - 1] == t;
    } else {
      var p, q := a[..|a| - 1], b[..|b| - 1];
      assert x[..|x| - 1] == s + [SLASH] + p && x[..|x| - 1] == t + [SLASH] + q;
      SplitsAtLast(s, p, t, q);
      assert a == p + [a[|a| - 1]] && b == q + [b[|b| - 1]];
    }
  }

  /**
   * Where tenants' ids hold no slash, two folders are one exactly if they are the same
   * tenant's and their prefixes differ in trailing slashes alone.
   */
  lemma {:induction false} FoldersExactly(p: Text, a: Text, q: Text, b: Text)
    requires SLASH !in a && SLASH !in b
    ensures Folder(p, a) == Folder(q, b) <==> a == b && SameButSlashes(p, q)
  {
    StripDecides(p, q);
    hide StripSlashes, SameButSlashes;
    var x, y := Folder(p, a), Folder(q, b);
    if x == y {
      assert x[..|x| - 1] == StripSlashes(p) + [SLASH] + a;
      assert y[..|y| - 1] == StripSlashes(q) + [SLASH] + b;
      SplitsAtLast(StripSlashes(p), a, StripSlashes(q), b);
    }
  }

  lemma {:induction false} FolderReads()
    ensures Folder(Ascii("siem/audit/"), Ascii("tenant-1")) == Ascii("siem/audit/tenant-1/")
  {
    AsciiJoins("siem/audit", "/");
    AsciiJoins("siem/audit/", "tenant-1");
    AsciiJoins("siem/audit/tenant-1", "/");
    assert "siem/audit" + "/" == "siem/audit/" && "siem/audit/" + "tenant-1" == "siem/audit/tenant-1";
    assert "siem/audit/tenant-1" + "/" == "siem/audit/tenant-1/";
    assert Ascii("/") == [SLASH];
    StripMore(Ascii("siem/audit"), [SLASH]);
    assert StripSlashes(Ascii("siem/audit")) == Ascii("siem/audit") by {
      assert Ascii("siem/audit")[9] == 't' as int;
    }
    hide Ascii, StripSlashes;
  }

  lemma {:induction false} FileNameReads()
    ensures FileName(4, 5) == Ascii("000000000004-000000000005.jsonl")
  {
    PadReads();
    AsciiJoins("000000000004", "-");
    AsciiJoins("000000000004-", "000000000005");
    AsciiJoins("000000000004-000000000005", ".jsonl");
    assert "000000000004" + "-" == "000000000004-";
    assert "000000000004-" + "000000000005" == "000000000004-000000000005";
    assert "000000000004-000000000005" + ".jsonl" == "000000000004-000000000005.jsonl";
    assert Ascii("-") == [DASH];
    hide Ascii, Pad;
  }

  lemma {:induction false} PadReads()
    ensures Pad(4) == Ascii("000000000004") && Pad(5) == Ascii("000000000005")
  {
    assert Zeros(3) == [ZERO, ZERO, ZERO];
    assert Zeros(7) == [ZERO, ZERO, ZERO, ZERO, ZERO, ZERO, ZERO];
    assert Zeros(11) == [ZERO, ZERO, ZERO, ZERO, ZERO, ZERO, ZERO, ZERO, ZERO, ZERO, ZERO];
  }

  /** By example: the key of the entries 4 to 5 of tenant-1, under siem/audit/. */
  lemma {:induction false} KeyReads()
    ensures StorageKey(Ascii("siem/audit/"), Ascii("tenant-1"), 4, 5)
         == Ascii("siem/audit/tenant-1/") + Ascii("000000000004-000000000005.jsonl")
  {
    FolderReads();
    FileNameReads();
    hide Ascii, Folder, FileName;
  }
}
