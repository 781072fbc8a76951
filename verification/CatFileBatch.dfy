/** Reading git cat-file output. */
module CatFileBatch {
  import opened Common
  import S = StorageKeys

  // A buffer's bytes; nothing below depends on their range.
  type Bytes = Text

  const MISSING: Bytes := Ascii("missing")

  /** One answer per object id: its content, or that there is none. */
  datatype Answer =
    | Found(id: Bytes, kind: Bytes, blob: Bytes)
    | Missing(id: Bytes)

  function Header(a: Answer): Bytes {
    match a
    case Found(id, kind, blob) => id + [SPACE] + kind + [SPACE] + S.Decimal(|blob|)
    case Missing(id) => id + [SPACE] + MISSING
  }

  function PrintAnswer(a: Answer): Bytes {
    Header(a) + [LINE_FEED] + (if a.Found? then a.blob + [LINE_FEED] else [])
  }

  function PrintAnswers(answers: seq<Answer>): Bytes {
    if answers == [] then [] else PrintAnswer(answers[0]) + PrintAnswers(answers[1..])
  }

  predicate IsWord(t: Bytes) {
    t != [] && forall i | 0 <= i < |t| :: t[i] != SPACE && t[i] != LINE_FEED
  }

  predicate WellNamed(a: Answer) {
    IsWord(a.id) && (a.Found? ==> IsWord(a.kind))
  }

  // ------------------------------------------------------- the loop's tools

  /** Buffer.indexOf, where the byte occurs. */
  function IndexOf(t: Bytes, u: Unit, from: nat): (i: nat)
    requires exists k :: from <= k < |t| && t[k] == u
    ensures from <= i < |t| && t[i] == u && forall k | from <= k < i :: t[k] != u
    decreases |t| - from
  {
    if t[from] == u then from else IndexOf(t, u, from + 1)
  }

  /** String.split on one character. */
  function Split(t: Bytes, u: Unit): (parts: seq<Bytes>)
    ensures |parts| >= 1
  {
    if t == [] then [[]]
    else
      var more := Split(t[1..], u);
      if t[0] == u then [[]] + more else [[t[0]] + more[0]] + more[1..]
  }

  /** Number of a size field; of none it is NaN. */
  function SizeOf(parts: seq<Bytes>): Option<nat> {
    if |parts| >= 3 && parts[2] != [] && AllDigits(parts[2]) then Some(NumberOf(parts[2])) else None
  }

  lemma {:induction false} DecimalReads(n: nat)
    ensures S.Decimal(n) != [] && AllDigits(S.Decimal(n)) && NumberOf(S.Decimal(n)) == n
  {
    var t := S.Decimal(n);
    if n < 10 {
      assert t[..0] == [];
      assert NumberOf(t) == 10 * NumberOf([]) + n;
    } else {
      DecimalReads(n / 10);
      assert t[..|t| - 1] == S.Decimal(n / 10);
    }
  }

  lemma {:induction false} SplitWord(w: Bytes, rest: Bytes)
    requires IsWord(w)
    ensures Split(w + [SPACE] + rest, SPACE) == [w] + Split(rest, SPACE)
  {
    var t := w + [SPACE] + rest;
    if |w| == 1 {
      assert t[1..] == [SPACE] + rest;
      assert ([SPACE] + rest)[1..] == rest;
      assert w == [w[0]] + [];
    } else {
      assert t[1..] == w[1..] + [SPACE] + rest;
      SplitWord(w[1..], rest);
      assert w == [w[0]] + w[1..];
    }
  }

  lemma {:induction false} SplitLast(w: Bytes)
    requires IsWord(w)
    ensures Split(w, SPACE) == [w]
  {
    if |w| == 1 {
      assert w[1..] == [] && w == [w[0]] + [];
    } else {
      SplitLast(w[1..]);
      assert w == [w[0]] + w[1..];
    }
  }

  lemma {:induction false} DecimalIsWord(n: nat)
    ensures IsWord(S.Decimal(n))
  {
    DecimalReads(n);
  }

  lemma {:induction false} MissingIsWord()
    ensures IsWord(MISSING)
  {
    var s := "missing";
    assert forall i | 0 <= i < |s| :: MISSING[i] == s[i] as int && 'a' <= s[i] <= 'z';
  }

  /** A header line splits into its fields: no size if the object is missing. */
  lemma {:induction false} HeaderReads(a: Answer)
    requires WellNamed(a)
    ensures LINE_FEED !in Header(a)
    ensures var parts := Split(Header(a), SPACE);
            parts[0] == a.id && SizeOf(parts) == if a.Found? then Some(|a.blob|) else None
  {
    hide Split;
    if a.Found? {
      var size := S.Decimal(|a.blob|);
      DecimalReads(|a.blob|);
      DecimalIsWord(|a.blob|);
      assert Header(a) == a.id + [SPACE] + (a.kind + [SPACE] + size);
      SplitWord(a.id, a.kind + [SPACE] + size);
      SplitWord(a.kind, size);
      SplitLast(size);
    } else {
      MissingIsWord();
      SplitWord(a.id, MISSING);
      SplitLast(MISSING);
    }
  }

  // ------------------------------------------------------------ the result

  function Content(a: Answer): Bytes {
    if a.Found? then a.blob else []
  }

  /** What the map is to hold: digests up to the first missing object, which ends the loop. */
  function Digests(hash: Bytes -> Text, answers: seq<Answer>): map<Bytes, Text> {
    if answers == [] then map[]
    else
      var front, a := Digests(hash, answers[..|answers| - 1]), answers[|answers| - 1];
      front[a.id := hash(Content(a))]
  }

  ghost predicate AllFound(answers: seq<Answer>) {
    forall i | 0 <= i < |answers| :: answers[i].Found?
  }

  lemma {:induction false} PrintedFrom(answers: seq<Answer>, n: nat)
    requires n < |answers|
    ensures PrintAnswers(answers[n..]) == PrintAnswer(answers[n]) + PrintAnswers(answers[n + 1..])
  {
    assert answers[n..][1..] == answers[n + 1..];
  }

  /** Where the first line lies in what is left of the output. */
  lemma {:induction false} LineAt(output: Bytes, offset: nat, head: Bytes, more: Bytes)
    requires LINE_FEED !in head && offset <= |output| && output[offset..] == head + ([LINE_FEED] + more)
    ensures var end := offset + |head|;
            && end < |output| && output[end] == LINE_FEED && output[offset..end] == head
            && (forall k | offset <= k < end :: output[k] != LINE_FEED)
            && output[end + 1..] == more
  {
    var rest, end := output[offset..], offset + |head|;
    assert output[end] == rest[|head|] == LINE_FEED;
    assert output[offset..end] == rest[..|head|] == head;
    forall k | offset <= k < end ensures output[k] != LINE_FEED {
      assert output[k] == head[k - offset];
      assert head[k - offset] in head;
    }
    assert output[end + 1..] == rest[|head| + 1..] == more;
  }

  lemma {:induction false} BlobAt(output: Bytes, start: nat, blob: Bytes, more: Bytes)
    requires start <= |output| && output[start..] == blob + ([LINE_FEED] + more)
    ensures var end := start + |blob|;
            end < |output| && output[start..end] == blob && output[end + 1..] == more
  {
    var rest, end := output[start..], start + |blob|;
    assert output[start..end] == rest[..|blob|] == blob;
    assert output[end + 1..] == rest[|blob| + 1..] == more;
  }

  /** An answer read where it starts: its line, then its content if there is one. */
  ghost predicate IsAnswerAt(output: Bytes, offset: nat, a: Answer, more: Bytes) {
    var end := offset + |Header(a)|;
    && end < |output| && output[end] == LINE_FEED && output[offset..end] == Header(a)
    && (forall k | offset <= k < end :: output[k] != LINE_FEED)
    && (a.Found? ==>
          && end + 1 + |a.blob| < |output| && output[end + 1..end + 1 + |a.blob|] == a.blob
          && output[end + 1 + |a.blob| + 1..] == more)
  }

  lemma {:induction false} FoundAnswerAt(output: Bytes, offset: nat, a: Answer, more: Bytes)
    requires a.Found? && LINE_FEED !in Header(a) && offset <= |output|
    requires output[offset..] == Header(a) + ([LINE_FEED] + (a.blob + ([LINE_FEED] + more)))
    ensures IsAnswerAt(output, offset, a, more)
  {
    hide Header;
    LineAt(output, offset, Header(a), a.blob + ([LINE_FEED] + more));
    BlobAt(output, offset + |Header(a)| + 1, a.blob, more);
  }

  lemma {:induction false} AnswerAt(output: Bytes, offset: nat, a: Answer, more: Bytes)
    requires WellNamed(a) && offset <= |output| && output[offset..] == PrintAnswer(a) + more
    ensures IsAnswerAt(output, offset, a, more)
  {
    HeaderReads(a);
    hide Header, PrintAnswer, Split, SizeOf;
    PrintedThen(a, more);
    if a.Found? {
      FoundAnswerAt(output, offset, a, more);
    } else {
      LineAt(output, offset, Header(a), more);
    }
  }

  lemma {:induction false} PrintedThen(a: Answer, more: Bytes)
    ensures a.Found? ==> PrintAnswer(a) + more == Header(a) + ([LINE_FEED] + (a.blob + ([LINE_FEED] + more)))
    ensures a.Missing? ==> PrintAnswer(a) + more == Header(a) + ([LINE_FEED] + more)
  {
    hide Header;
  }

  lemma {:induction false} DigestsSnoc(hash: Bytes -> Text, answers: seq<Answer>, n: nat)
    requires n < |answers|
    ensures Digests(hash, answers[..n + 1])
         == Digests(hash, answers[..n])[answers[n].id := hash(Content(answers[n]))]
  {
    assert answers[..n + 1][..n] == answers[..n];
  }

  ghost predicate At(output: Bytes, offset: nat, answers: seq<Answer>, n: nat) {
    && (forall i | 0 <= i < |answers| :: WellNamed(answers[i]))
    && offset <= |output| && n <= |answers| && output[offset..] == PrintAnswers(answers[n..])
  }

  /** One turn of the loop reads one answer. */
  lemma {:induction false} TurnReads(output: Bytes, offset: nat, answers: seq<Answer>, n: nat)
    requires At(output, offset, answers, n) && offset < |output|
    ensures n < |answers| && exists k :: offset <= k < |output| && output[k] == LINE_FEED
    ensures var a, headerEnd := answers[n], IndexOf(output, LINE_FEED, offset);
            var parts := Split(output[offset..headerEnd], SPACE);
            && parts[0] == a.id && SizeOf(parts).None? == a.Missing?
            && (a.Found? ==>
                  var end := headerEnd + 1 + SizeOf(parts).value;
                  && end + 1 <= |output| && output[headerEnd + 1..end] == a.blob
                  && At(output, end + 1, answers, n + 1))
  {
    hide PrintAnswer, PrintAnswers, Header, Split, SizeOf;
    SomethingLeft(answers, n);
    var a := answers[n];
    PrintedFrom(answers, n);
    AnswerAt(output, offset, a, PrintAnswers(answers[n + 1..]));
    HeaderReads(a);
    assert IndexOf(output, LINE_FEED, offset) == offset + |Header(a)|;
  }

  /** The answers the loop reads: all, or up to the first missing object. */
  function Seen(answers: seq<Answer>): seq<Answer> {
    if answers == [] then [] else if answers[0].Missing? then answers[..1] else [answers[0]] + Seen(answers[1..])
  }

  /** The map so far, no missing object met. */
  ghost predicate Progress(hash: Bytes -> Text, answers: seq<Answer>, n: nat, hashOf: map<Bytes, Text>) {
    n <= |answers| && hashOf == Digests(hash, answers[..n]) && AllFound(answers[..n])
  }

  lemma {:induction false} SeenSplits(answers: seq<Answer>, n: nat)
    requires n <= |answers| && AllFound(answers[..n])
    ensures n == |answers| ==> Seen(answers) == answers
    ensures n < |answers| && answers[n].Missing? ==> Seen(answers) == answers[..n + 1]
  {
    if n > 0 {
      assert answers[..n][0] == answers[0];
      assert answers[..n][1..] == answers[1..][..n - 1];
      SeenSplits(answers[1..], n - 1);
      assert n < |answers| ==> answers[..n + 1] == [answers[0]] + answers[1..][..n];
    }
  }

  lemma {:induction false} ProgressGoesOn(hash: Bytes -> Text, answers: seq<Answer>, n: nat, hashOf: map<Bytes, Text>)
    requires Progress(hash, answers, n, hashOf) && n < |answers|
    ensures answers[n].Found? ==> Progress(hash, answers, n + 1, hashOf[answers[n].id := hash(answers[n].blob)])
    ensures answers[n].Missing? ==> hashOf[answers[n].id := hash([])] == Digests(hash, Seen(answers))
  {
    hide Digests, Seen;
    DigestsSnoc(hash, answers, n);
    SeenSplits(answers, n);
  }

  lemma {:induction false} ProgressEnds(hash: Bytes -> Text, answers: seq<Answer>, hashOf: map<Bytes, Text>)
    requires Progress(hash, answers, |answers|, hashOf)
    ensures hashOf == Digests(hash, Seen(answers))
  {
    assert answers[..|answers|] == answers;
    SeenSplits(answers, |answers|);
  }

  lemma {:induction false} ProgressBegins(hash: Bytes -> Text, answers: seq<Answer>)
    ensures Progress(hash, answers, 0, map[])
  {
  }

  /**
   * The loop, on any output git can answer with: every id gets the digest of exactly its
   * bytes, though they hold line feeds or text like a header. An object git does not have
   * gets the digest of nothing, and ends the loop with the rest unread.
   */
  method HashesOf(hash: Bytes -> Text, output: Bytes, ghost answers: seq<Answer>) returns (hashOf: map<Bytes, Text>)
    requires output == PrintAnswers(answers) && forall i | 0 <= i < |answers| :: WellNamed(answers[i])
    ensures hashOf == Digests(hash, Seen(answers))
  {
    hide PrintAnswers, Split, SizeOf, At, Progress, Digests, Seen;
    hashOf := map[];
    var offset: nat := 0;
    ghost var seen: nat := 0;
    StartsAt(output, answers);
    ProgressBegins(hash, answers);
    while offset < |output|
      invariant offset <= |output| && At(output, offset, answers, seen)
      invariant Progress(hash, answers, seen, hashOf)
      decreases |output| - offset
    {
      TurnReads(output, offset, answers, seen);
      ProgressGoesOn(hash, answers, seen, hashOf);
      var headerEnd := IndexOf(output, LINE_FEED, offset);
      var parts := Split(output[offset..headerEnd], SPACE);
      var id, size := parts[0], SizeOf(parts);
      var start := headerEnd + 1;
      seen := seen + 1;
      if size.None? {
        hashOf := hashOf[id := hash([])];
        return;
      }
      var end := start + size.value;
      hashOf := hashOf[id := hash(output[start..end])];
      offset := end + 1;
    }
    EndsAt(output, offset, answers, seen);
    ProgressEnds(hash, answers, hashOf);
  }

  lemma {:induction false} StartsAt(output: Bytes, answers: seq<Answer>)
    requires output == PrintAnswers(answers) && forall i | 0 <= i < |answers| :: WellNamed(answers[i])
    ensures At(output, 0, answers, 0)
  {
    assert output[0..] == output && answers[0..] == answers;
  }

  lemma {:induction false} EndsAt(output: Bytes, offset: nat, answers: seq<Answer>, n: nat)
    requires At(output, offset, answers, n) && offset == |output|
    ensures n == |answers|
  {
  }

  lemma {:induction false} SomethingLeft(answers: seq<Answer>, n: nat)
    requires n <= |answers| && PrintAnswers(answers[n..]) != []
    ensures n < |answers|
  {
  }

  /** What is read is a beginning: an answer is, exactly if git has all objects before it. */
  lemma {:induction false} SeenReaches(answers: seq<Answer>)
    ensures Seen(answers) <= answers
    ensures forall i | 0 <= i < |answers| :: i < |Seen(answers)| <==> AllFound(answers[..i])
  {
    if answers != [] {
      SeenReaches(answers[1..]);
      forall i | 0 <= i < |answers| ensures i < |Seen(answers)| <==> AllFound(answers[..i]) {
        if i > 0 {
          assert answers[..i][0] == answers[0];
          assert answers[..i] == [answers[0]] + answers[1..][..i - 1];
        }
      }
    }
  }

  /** The loop reads every answer exactly if git has all objects but perhaps the last. */
  lemma {:induction false} AllSeenExactly(answers: seq<Answer>)
    ensures Seen(answers) == answers <==> forall i | 0 <= i < |answers| - 1 :: answers[i].Found?
  {
    SeenReaches(answers);
    if answers != [] {
      var last := |answers| - 1;
      assert Seen(answers) == answers <==> last < |Seen(answers)|;
      assert forall i | 0 <= i < last :: answers[..last][i] == answers[i];
    }
  }

  ghost predicate DistinctIds(answers: seq<Answer>) {
    forall i, j | 0 <= i < j < |answers| :: answers[i].id != answers[j].id
  }

  /** Ids are distinct: each has the digest of its own bytes, and no other id has one. */
  lemma {:induction false} DigestsExact(hash: Bytes -> Text, answers: seq<Answer>)
    requires DistinctIds(answers)
    ensures forall i | 0 <= i < |answers| ::
              answers[i].id in Digests(hash, answers) && Digests(hash, answers)[answers[i].id] == hash(Content(answers[i]))
    ensures forall id | id in Digests(hash, answers) :: exists i :: 0 <= i < |answers| && answers[i].id == id
  {
    if answers != [] {
      var front := answers[..|answers| - 1];
      DigestsExact(hash, front);
      forall id | id in Digests(hash, answers) ensures exists i :: 0 <= i < |answers| && answers[i].id == id {
        if id == answers[|front|].id {
          assert answers[|front|].id == id;
        } else {
          assert id in Digests(hash, front);
          var i :| 0 <= i < |front| && front[i].id == id;
          assert answers[i].id == id;
        }
      }
    }
  }

  /**
   * What the loop maps, id by id: exactly those up to the first object git does not have,
   * each to the digest of its own bytes, a missing one to that of none.
   */
  lemma {:induction false} MappedExactly(hash: Bytes -> Text, answers: seq<Answer>, i: nat)
    requires DistinctIds(answers) && i < |answers|
    ensures var hashOf := Digests(hash, Seen(answers));
            && (answers[i].id in hashOf <==> AllFound(answers[..i]))
            && (answers[i].id in hashOf ==> hashOf[answers[i].id] == hash(Content(answers[i])))
  {
    SeenReaches(answers);
    var seen := Seen(answers);
    hide Digests, Seen, AllFound;
    assert forall k | 0 <= k < |seen| :: seen[k] == answers[k];
    DigestsExact(hash, seen);
    if answers[i].id in Digests(hash, seen) {
      var k :| 0 <= k < |seen| && seen[k].id == answers[i].id;
      assert k == i;
    }
    if i < |seen| {
      assert seen[i] == answers[i];
    }
  }

  /** An id is mapped to the digest of the object's own bytes. */
  ghost predicate HasOwnDigest(hash: Bytes -> Text, hashOf: map<Bytes, Text>, a: Answer) {
    a.Found? && a.id in hashOf && hashOf[a.id] == hash(a.blob)
  }

  /**
   * Every id is mapped exactly if git has all objects but perhaps the last; every id is
   * mapped to its own object's digest exactly if git has them all.
   */
  lemma {:induction false} EveryDigestExactly(hash: Bytes -> Text, answers: seq<Answer>)
    requires DistinctIds(answers)
    ensures var hashOf := Digests(hash, Seen(answers));
            && ((forall i | 0 <= i < |answers| :: answers[i].id in hashOf)
                <==> forall i | 0 <= i < |answers| - 1 :: answers[i].Found?)
            && ((forall i | 0 <= i < |answers| :: HasOwnDigest(hash, hashOf, answers[i])) <==> AllFound(answers))
  {
    var hashOf := Digests(hash, Seen(answers));
    hide Digests, Seen;
    forall i | 0 <= i < |answers|
      ensures answers[i].id in hashOf <==> AllFound(answers[..i])
      ensures answers[i].id in hashOf ==> hashOf[answers[i].id] == hash(Content(answers[i]))
    {
      MappedExactly(hash, answers, i);
    }
    if answers != [] {
      var last := |answers| - 1;
      assert forall i | 0 <= i < last :: answers[..last][i] == answers[i];
      assert AllFound(answers[..last]) ==> forall i | 0 <= i < |answers| :: AllFound(answers[..i]);
    }
  }

  /** By example: an object git has, after one it does not have, gets no digest. */
  lemma {:induction false} MissingHidesNext(hash: Bytes -> Text)
    ensures var answers := [Missing([97]), Found([98], [99], [])];
            && (forall i | 0 <= i < |answers| :: WellNamed(answers[i]))
            && Digests(hash, Seen(answers)) == map[[97] := hash([])]
  {
    var answers := [Missing([97]), Found([98], [99], [])];
    assert Seen(answers) == [answers[0]];
    assert [answers[0]][..0] == [];
    assert Digests(hash, [answers[0]]) == Digests(hash, [])[[97] := hash([])];
  }
}
