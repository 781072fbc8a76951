/** One text for the same data. */
module CanonicalJson {
  /** canonicalJson: the same for data that differs in key order alone, different otherwise. */

  import opened Common
  import opened JsValues
  import opened JsonText

  /** "__proto__": assigned on a plain object it sets the prototype, not a property. */
  const PROTO: Text := [95, 95, 112, 114, 111, 116, 111, 95, 95]

  ghost predicate DistinctKeys(fields: seq<Field>) {
    forall i, j | 0 <= i < j < |fields| :: fields[i].key != fields[j].key
  }

  /** Holds of every JavaScript value: own keys are distinct and numbers print as numbers. */
  ghost predicate Valid(v: Value) {
    match v
    case Finite(text) => IsNumberText(text)
    case Arr(elements) => forall i | 0 <= i < |elements| :: Valid(elements[i])
    case Obj(fields) => DistinctKeys(fields) && forall i | 0 <= i < |fields| :: Valid(fields[i].value)
    case _ => true
  }

  // ------------------------------------------------------- property order

  const MAX_INDEX: Text := [52, 50, 57, 52, 57, 54, 55, 50, 57, 52] // 2^32 - 2

  function Shorter(a: Text, b: Text): bool {
    |a| < |b| || (|a| == |b| && LexBefore(a, b))
  }

  /** An array index key: a canonical decimal of at most 2^32 - 2. */
  predicate IsIndex(key: Text) {
    && key != []
    && (forall i | 0 <= i < |key| :: IsDigit(key[i]))
    && (|key| == 1 || key[0] != '0' as int)
    && !Shorter(MAX_INDEX, key)
  }

  /**
   * OrdinaryOwnPropertyKeys: indices first, numerically (for canonical decimals,
   * by length and then by digits), then the other keys -- which canonicalJson
   * inserts in code unit order.
   */
  predicate KeyBefore(a: Text, b: Text) {
    if IsIndex(a) then !IsIndex(b) || Shorter(a, b)
    else !IsIndex(b) && LexBefore(a, b)
  }

  lemma {:induction false} KeyBeforeOrders(a: Text, b: Text)
    ensures a == b || KeyBefore(a, b) || KeyBefore(b, a)
    ensures !(KeyBefore(a, b) && KeyBefore(b, a))
  {
    LexTotal(a, b);
  }

  lemma {:induction false} KeyBeforeTransitive(a: Text, b: Text, c: Text)
    requires KeyBefore(a, b) && KeyBefore(b, c)
    ensures KeyBefore(a, c)
  {
    if LexBefore(a, b) && LexBefore(b, c) {
      LexTransitive(a, b, c);
    }
  }

  // ---------------------------------------------------------- sorting keys

  /** Object.keys(value).sort(), each key with its value. */
  function SortFields(fields: seq<Field>): (sorted: seq<Field>)
    ensures multiset(sorted) == multiset(fields)
  {
    if fields == [] then []
    else
      assert fields == [fields[0]] + fields[1..];
      InsertSorted(SortFields(fields[1..]), fields[0])
  }

  function InsertSorted(sorted: seq<Field>, f: Field): (r: seq<Field>)
    ensures multiset(r) == multiset(sorted) + multiset{f}
  {
    if sorted == [] || LexBefore(f.key, sorted[0].key) then [f] + sorted
    else
      assert sorted == [sorted[0]] + sorted[1..];
      [sorted[0]] + InsertSorted(sorted[1..], f)
  }

  /** sorted[key] = value on a fresh object, for a key it does not hold yet. */
  function Assign(own: seq<Field>, f: Field): seq<Field> {
    if f.key == PROTO then own
    else if IsIndex(f.key) then InsertIndex(own, f)
    else own + [f]
  }

  function InsertIndex(own: seq<Field>, f: Field): (r: seq<Field>)
    ensures multiset(r) == multiset(own) + multiset{f}
  {
    if own == [] || !IsIndex(own[0].key) || Shorter(f.key, own[0].key) then [f] + own
    else
      assert own == [own[0]] + own[1..];
      [own[0]] + InsertIndex(own[1..], f)
  }

  /** The reduce over the sorted keys, from a fresh object. */
  function Assemble(fields: seq<Field>): seq<Field> {
    if fields == [] then [] else Assign(Assemble(fields[..|fields| - 1]), fields[|fields| - 1])
  }

  function SortKeys(v: Value): Value
    decreases v, 0
  {
    match v
    case Date(iso) => Str(iso)
    case Arr(elements) =>
      Arr(seq(|elements|, i requires 0 <= i < |elements| => SortKeys(elements[i])))
    case Obj(fields) =>
      Obj(Assemble(SortFields(SortEach(fields))))
    case _ => v
  }

  function SortEach(fields: seq<Field>): (r: seq<Field>)
    ensures |r| == |fields|
    ensures forall i | 0 <= i < |fields| :: r[i].key == fields[i].key
    decreases fields, 1
  {
    seq(|fields|, i requires 0 <= i < |fields| => Field(fields[i].key, SortKeys(fields[i].value)))
  }

  // -------------------------------------------------------- JSON.stringify

  /** SerializeJSONProperty: undefined is no value, NaN and the infinities are null. */
  function ToJson(v: Value): (j: Option<Json>)
    ensures j.None? <==> v.Undefined?
    decreases v, 0
  {
    match v
    case Undefined => None
    case Null => Some(JNull)
    case Bool(b) => Some(JBool(b))
    case Finite(text) => Some(JNumber(text))
    case NonFinite => Some(JNull)
    case Str(s) => Some(JString(s))
    case Date(iso) => Some(JString(iso))
    case Arr(elements) =>
      Some(JArray(seq(|elements|, i requires 0 <= i < |elements| => ElementJson(elements[i]))))
    case Obj(fields) => Some(JObject(ToMembers(fields)))
  }

  function ElementJson(v: Value): Json
    decreases v, 1
  {
    var j := ToJson(v);
    if j.None? then JNull else j.value
  }

  function ToMembers(fields: seq<Field>): (members: seq<Member>)
    decreases fields, 0
  {
    if fields == [] then []
    else
      var rest := ToMembers(fields[1..]);
      var j := ToJson(fields[0].value);
      if j.None? then rest else [Member(fields[0].key, j.value)] + rest
  }

  function Stringify(v: Value): Option<Text> {
    var j := ToJson(v);
    if j.None? then None else Some(Print(j.value))
  }

  /** canonicalJson(value); undefined only for undefined itself. */
  function Canonical(v: Value): Option<Text> {
    Stringify(SortKeys(v))
  }

  // ------------------------------------------------------------- meaning

  /** JSON data with objects as finite maps: no key order left to compare. */
  datatype Data =
    | DNull
    | DBool(b: bool)
    | DNumber(text: Text)
    | DString(s: Text)
    | DArray(elements: seq<Data>)
    | DObject(members: map<Text, Data>)

  ghost function KeySet(fields: seq<Field>): set<Text> {
    set i | 0 <= i < |fields| :: fields[i].key
  }

  ghost function IndexOf(fields: seq<Field>, key: Text): (i: nat)
    requires key in KeySet(fields)
    ensures i < |fields| && fields[i].key == key
  {
    var i :| 0 <= i < |fields| && fields[i].key == key; i
  }

  /** The JSON data a JavaScript value stands for: a Date is its text, NaN is null,
      an undefined member is absent and an undefined element is null. */
  ghost function Denote(v: Value): (d: Option<Data>)
    ensures d.None? <==> v.Undefined?
    decreases v
  {
    match v
    case Undefined => None
    case Null => Some(DNull)
    case Bool(b) => Some(DBool(b))
    case Finite(text) => Some(DNumber(text))
    case NonFinite => Some(DNull)
    case Str(s) => Some(DString(s))
    case Date(iso) => Some(DString(iso))
    case Arr(elements) =>
      Some(DArray(seq(|elements|, i requires 0 <= i < |elements| =>
        var d := Denote(elements[i]); if d.None? then DNull else d.value)))
    case Obj(fields) =>
      Some(DObject(map key | key in KeySet(fields) && !fields[IndexOf(fields, key)].value.Undefined?
        :: Denote(fields[IndexOf(fields, key)].value).value))
  }

  ghost function MemberKeys(members: seq<Member>): seq<Text> {
    seq(|members|, i requires 0 <= i < |members| => members[i].key)
  }

  ghost function MemberIndex(members: seq<Member>, key: Text): (i: nat)
    requires key in MemberKeys(members)
    ensures i < |members| && members[i].key == key
  {
    var i :| 0 <= i < |MemberKeys(members)| && MemberKeys(members)[i] == key; i
  }

  ghost function DenoteJson(j: Json): Data {
    match j
    case JNull => DNull
    case JBool(b) => DBool(b)
    case JNumber(text) => DNumber(text)
    case JString(s) => DString(s)
    case JArray(items) => DArray(seq(|items|, i requires 0 <= i < |items| => DenoteJson(items[i])))
    case JObject(members) =>
      DObject(map key | key in MemberKeys(members) :: DenoteJson(members[MemberIndex(members, key)].value))
  }

  /** The data without its `__proto__` members, at every depth. */
  ghost function StripProto(d: Data): Data {
    match d
    case DArray(elements) => DArray(seq(|elements|, i requires 0 <= i < |elements| => StripProto(elements[i])))
    case DObject(members) => DObject(map key | key in members && key != PROTO :: StripProto(members[key]))
    case _ => d
  }

  // ---------------------------------------------- the tree that is printed

  ghost predicate LexSorted(fields: seq<Field>) {
    forall i, j | 0 <= i < j < |fields| :: LexBefore(fields[i].key, fields[j].key)
  }

  ghost predicate KeySorted(fields: seq<Field>) {
    forall i, j | 0 <= i < j < |fields| :: KeyBefore(fields[i].key, fields[j].key)
  }

  ghost predicate Increasing(keys: seq<Text>) {
    forall i, j | 0 <= i < j < |keys| :: KeyBefore(keys[i], keys[j])
  }

  ghost predicate Ordered(j: Json) {
    match j
    case JArray(items) => forall i | 0 <= i < |items| :: Ordered(items[i])
    case JObject(members) =>
      Increasing(MemberKeys(members)) && forall i | 0 <= i < |members| :: Ordered(members[i].value)
    case _ => true
  }

  lemma {:induction false} InsertSortedKeepsOrder(sorted: seq<Field>, f: Field)
    requires LexSorted(sorted)
    requires forall i | 0 <= i < |sorted| :: sorted[i].key != f.key
    ensures LexSorted(InsertSorted(sorted, f))
  {
    if sorted != [] {
      LexTotal(f.key, sorted[0].key);
      if LexBefore(f.key, sorted[0].key) {
        forall i | 0 < i < |sorted| ensures LexBefore(f.key, sorted[i].key) {
          LexTransitive(f.key, sorted[0].key, sorted[i].key);
        }
      } else {
        InsertSortedKeepsOrder(sorted[1..], f);
        var r := InsertSorted(sorted[1..], f);
        forall i | 0 <= i < |r| ensures LexBefore(sorted[0].key, r[i].key) {
          assert r[i] in multiset(r);
          assert r[i] == f || r[i] in sorted[1..];
        }
      }
    }
  }

  lemma {:induction false} SortFieldsSorts(fields: seq<Field>)
    requires DistinctKeys(fields)
    ensures LexSorted(SortFields(fields))
  {
    if fields != [] {
      SortFieldsSorts(fields[1..]);
      var r := SortFields(fields[1..]);
      forall i | 0 <= i < |r| ensures r[i].key != fields[0].key {
        assert r[i] in multiset(r);
        assert r[i] in fields[1..];
      }
      InsertSortedKeepsOrder(r, fields[0]);
    }
  }

  lemma {:induction false} InsertIndexKeepsOrder(own: seq<Field>, f: Field)
    requires KeySorted(own) && IsIndex(f.key)
    requires forall i | 0 <= i < |own| :: own[i].key != f.key
    ensures KeySorted(InsertIndex(own, f))
  {
    if own != [] {
      KeyBeforeOrders(f.key, own[0].key);
      if KeyBefore(f.key, own[0].key) {
        forall i | 0 < i < |own| ensures KeyBefore(f.key, own[i].key) {
          KeyBeforeTransitive(f.key, own[0].key, own[i].key);
        }
      } else {
        InsertIndexKeepsOrder(own[1..], f);
        var r := InsertIndex(own[1..], f);
        forall i | 0 <= i < |r| ensures KeyBefore(own[0].key, r[i].key) {
          assert r[i] in multiset(r);
          assert r[i] == f || r[i] in own[1..];
        }
      }
    }
  }

  lemma {:induction false} AssembleHolds(fields: seq<Field>, f: Field)
    ensures f in Assemble(fields) <==> f in fields && f.key != PROTO
  {
    if fields != [] {
      var front, last := fields[..|fields| - 1], fields[|fields| - 1];
      AssembleHolds(front, f);
      assert fields == front + [last];
      if IsIndex(last.key) && last.key != PROTO {
        var r := InsertIndex(Assemble(front), last);
        assert f in r <==> f in multiset(r);
      }
    }
  }

  lemma {:induction false} AssembleSorts(fields: seq<Field>)
    requires LexSorted(fields)
    ensures KeySorted(Assemble(fields))
  {
    if fields != [] {
      var front, last := fields[..|fields| - 1], fields[|fields| - 1];
      var own := Assemble(front);
      AssembleSorts(front);
      forall i | 0 <= i < |own| ensures LexBefore(own[i].key, last.key) && own[i].key != last.key {
        AssembleHolds(front, own[i]);
        assert own[i] in front;
        LexTotal(own[i].key, last.key);
      }
      if IsIndex(last.key) {
        InsertIndexKeepsOrder(own, last);
      }
    }
  }

  lemma {:induction false} MembersMirror(fields: seq<Field>)
    ensures forall m | m in ToMembers(fields) ::
              exists f | f in fields :: f.key == m.key && ToJson(f.value) == Some(m.value)
    ensures forall f | f in fields && !f.value.Undefined? ::
              Member(f.key, ToJson(f.value).value) in ToMembers(fields)
  {
    if fields != [] {
      var rest := ToMembers(fields[1..]);
      MembersMirror(fields[1..]);
      forall m | m in ToMembers(fields)
        ensures exists f | f in fields :: f.key == m.key && ToJson(f.value) == Some(m.value)
      {
        if m in rest {
          var f :| f in fields[1..] && f.key == m.key && ToJson(f.value) == Some(m.value);
          assert f in fields;
        } else {
          assert fields[0] in fields;
        }
      }
    }
  }

  lemma {:induction false} MemberKeyIsFieldKey(fields: seq<Field>, key: Text)
    requires key in MemberKeys(ToMembers(fields))
    ensures exists k | 0 <= k < |fields| :: fields[k].key == key
  {
    MembersMirror(fields);
    var members := ToMembers(fields);
    var i :| 0 <= i < |members| && MemberKeys(members)[i] == key;
    assert members[i] in members;
    var f :| f in fields && f.key == key;
  }

  lemma {:induction false} MembersIncrease(fields: seq<Field>)
    requires KeySorted(fields)
    ensures Increasing(MemberKeys(ToMembers(fields)))
  {
    if fields != [] {
      var rest := MemberKeys(ToMembers(fields[1..]));
      MembersIncrease(fields[1..]);
      forall i | 0 <= i < |rest| ensures KeyBefore(fields[0].key, rest[i]) {
        MemberKeyIsFieldKey(fields[1..], rest[i]);
      }
      assert MemberKeys(ToMembers(fields))
          == (if fields[0].value.Undefined? then rest else [fields[0].key] + rest);
    }
  }

  lemma {:induction false} MembersStayDistinct(fields: seq<Field>)
    requires DistinctKeys(fields)
    ensures Distinct(MemberKeys(ToMembers(fields)))
  {
    if fields != [] {
      var rest := MemberKeys(ToMembers(fields[1..]));
      MembersStayDistinct(fields[1..]);
      forall i | 0 <= i < |rest| ensures fields[0].key != rest[i] {
        MemberKeyIsFieldKey(fields[1..], rest[i]);
      }
      assert MemberKeys(ToMembers(fields))
          == (if fields[0].value.Undefined? then rest else [fields[0].key] + rest);
    }
  }

  lemma {:induction false} OwnFieldsAre(fields: seq<Field>, own: seq<Field>)
    requires DistinctKeys(fields)
    requires own == Assemble(SortFields(SortEach(fields)))
    ensures KeySorted(own)
    ensures forall f :: f in own <==> f in SortEach(fields) && f.key != PROTO
  {
    var mapped := SortEach(fields);
    var sorted := SortFields(mapped);
    SortFieldsSorts(mapped);
    AssembleSorts(sorted);
    forall f ensures f in own <==> f in mapped && f.key != PROTO {
      AssembleHolds(sorted, f);
      assert f in sorted <==> f in multiset(sorted);
    }
  }

  ghost predicate ComesFrom(m: Member, fields: seq<Field>, i: int) {
    && 0 <= i < |fields|
    && fields[i].key == m.key != PROTO
    && ToJson(SortKeys(fields[i].value)) == Some(m.value)
  }

  /** What becomes of an object: its members are those of its fields that are neither
      undefined nor `__proto__`, in key order. */
  lemma {:induction false} ObjectTree(fields: seq<Field>, members: seq<Member>)
    requires DistinctKeys(fields)
    requires members == ToMembers(SortKeys(Obj(fields)).fields)
    ensures Increasing(MemberKeys(members))
    ensures forall m | m in members :: exists i :: ComesFrom(m, fields, i)
    ensures forall i, m | ComesFrom(m, fields, i) :: m in members
  {
    var mapped := SortEach(fields);
    var own := SortKeys(Obj(fields)).fields;
    OwnFieldsAre(fields, own);
    MembersMirror(own);
    MembersIncrease(own);
    forall m | m in members ensures exists i :: ComesFrom(m, fields, i) {
      var f :| f in own && f.key == m.key && ToJson(f.value) == Some(m.value);
      var i :| 0 <= i < |mapped| && mapped[i] == f;
      assert ComesFrom(m, fields, i);
    }
    forall i, m | ComesFrom(m, fields, i) ensures m in members {
      assert mapped[i] in mapped;
      assert Member(mapped[i].key, ToJson(mapped[i].value).value) in members;
    }
  }

  /** The canonical tree is well formed, in key order, and denotes the value's data
      less its `__proto__` members. */
  ghost predicate Faithful(v: Value) {
    var tree := ToJson(SortKeys(v));
    && tree.None? == v.Undefined?
    && (tree.Some? ==> && WellFormed(tree.value)
                       && Ordered(tree.value)
                       && DenoteJson(tree.value) == StripProto(Denote(v).value))
  }

  lemma {:induction false} MemberDenotes(fields: seq<Field>, members: seq<Member>, key: Text)
    requires DistinctKeys(fields)
    requires members == ToMembers(SortKeys(Obj(fields)).fields)
    requires forall i | 0 <= i < |fields| :: Faithful(fields[i].value)
    requires key in MemberKeys(members)
    ensures key != PROTO && key in Denote(Obj(fields)).value.members
    ensures DenoteJson(members[MemberIndex(members, key)].value) == StripProto(Denote(Obj(fields)).value.members[key])
  {
    ObjectTree(fields, members);
    var m := members[MemberIndex(members, key)];
    assert m in members;
    var i :| ComesFrom(m, fields, i);
    assert Faithful(fields[i].value);
    assert key in KeySet(fields);
    assert IndexOf(fields, key) == i;
  }

  lemma {:induction false} FieldAppears(fields: seq<Field>, members: seq<Member>, key: Text)
    requires DistinctKeys(fields)
    requires members == ToMembers(SortKeys(Obj(fields)).fields)
    requires forall i | 0 <= i < |fields| :: Faithful(fields[i].value)
    requires key != PROTO && key in Denote(Obj(fields)).value.members
    ensures key in MemberKeys(members)
  {
    ObjectTree(fields, members);
    var i := IndexOf(fields, key);
    assert Faithful(fields[i].value);
    var m := Member(key, ToJson(SortKeys(fields[i].value)).value);
    assert ComesFrom(m, fields, i);
    var k :| 0 <= k < |members| && members[k] == m;
    assert MemberKeys(members)[k] == key;
  }

  lemma {:induction false} ObjectWellFormed(fields: seq<Field>, members: seq<Member>)
    requires DistinctKeys(fields)
    requires members == ToMembers(SortKeys(Obj(fields)).fields)
    requires forall i | 0 <= i < |fields| :: Faithful(fields[i].value)
    ensures WellFormed(JObject(members)) && Ordered(JObject(members))
  {
    ObjectTree(fields, members);
    forall j | 0 <= j < |members| ensures WellFormed(members[j].value) && Ordered(members[j].value) {
      assert members[j] in members;
      var i :| ComesFrom(members[j], fields, i);
      assert Faithful(fields[i].value);
    }
  }

  lemma {:induction false} StrippedMap(left: map<Text, Data>, all: map<Text, Data>)
    requires forall key | key in left :: key != PROTO && key in all && left[key] == StripProto(all[key])
    requires forall key | key in all && key != PROTO :: key in left
    ensures DObject(left) == StripProto(DObject(all))
  {
    assert left == StripProto(DObject(all)).members;
  }

  lemma {:induction false} ObjectMeaning(fields: seq<Field>, members: seq<Member>)
    requires DistinctKeys(fields)
    requires members == ToMembers(SortKeys(Obj(fields)).fields)
    requires forall i | 0 <= i < |fields| :: Faithful(fields[i].value)
    ensures DenoteJson(JObject(members)) == StripProto(Denote(Obj(fields)).value)
  {
    var left, all := DenoteJson(JObject(members)).members, Denote(Obj(fields)).value.members;
    forall key | key in left ensures key != PROTO && key in all && left[key] == StripProto(all[key]) {
      assert key in MemberKeys(members);
      MemberDenotes(fields, members, key);
    }
    forall key | key in all && key != PROTO ensures key in left {
      FieldAppears(fields, members, key);
    }
    StrippedMap(left, all);
  }

  lemma {:induction false} ObjectFaithful(fields: seq<Field>)
    requires DistinctKeys(fields)
    requires forall i | 0 <= i < |fields| :: Faithful(fields[i].value)
    ensures Faithful(Obj(fields))
  {
    var members := ToMembers(SortKeys(Obj(fields)).fields);
    ObjectWellFormed(fields, members);
    ObjectMeaning(fields, members);
  }

  lemma {:induction false} CanonicalTreeFaithful(v: Value)
    requires Valid(v)
    ensures Faithful(v)
  {
    match v
    case Arr(elements) =>
      forall i | 0 <= i < |elements| ensures Faithful(elements[i]) {
        CanonicalTreeFaithful(elements[i]);
      }
      var items := ToJson(SortKeys(v)).value.items;
      assert |items| == |elements|;
      forall i | 0 <= i < |elements|
        ensures WellFormed(items[i]) && Ordered(items[i])
        ensures DenoteJson(items[i]) == StripProto(Denote(v).value.elements[i])
      {
        assert items[i] == ElementJson(SortKeys(elements[i]));
      }
    case Obj(fields) =>
      forall i | 0 <= i < |fields| ensures Faithful(fields[i].value) {
        CanonicalTreeFaithful(fields[i].value);
      }
      ObjectFaithful(fields);
    case _ =>
  }

  // ------------------------------------------------------ one tree per data

  lemma {:induction false} IncreasingUnique(a: seq<Text>, b: seq<Text>)
    requires Increasing(a) && Increasing(b)
    requires forall key :: key in a <==> key in b
    ensures a == b
  {
    assert (a != [] ==> a[0] in b) && (b != [] ==> b[0] in a);
    if a != [] && b != [] {
      KeyBeforeOrders(a[0], b[0]);
      KeyBeforeOrders(a[0], a[0]);
      forall key ensures key in a[1..] <==> key in b[1..] {
        if key in a[1..] {
          var i :| 1 <= i < |a| && a[i] == key;
          KeyBeforeOrders(a[0], key);
          assert key in a;
        }
        if key in b[1..] {
          var i :| 1 <= i < |b| && b[i] == key;
          KeyBeforeOrders(b[0], key);
          assert key in b;
        }
      }
      IncreasingUnique(a[1..], b[1..]);
      assert a == [a[0]] + a[1..] && b == [b[0]] + b[1..];
    }
  }

  lemma {:induction false} OrderedUnique(a: Json, b: Json)
    requires Ordered(a) && Ordered(b) && DenoteJson(a) == DenoteJson(b)
    ensures a == b
  {
    match a
    case JArray(items) =>
      forall i | 0 <= i < |items| ensures items[i] == b.items[i] {
        assert DenoteJson(a).elements[i] == DenoteJson(b).elements[i];
        OrderedUnique(items[i], b.items[i]);
      }
    case JObject(members) =>
      var ka, kb := MemberKeys(members), MemberKeys(b.members);
      forall key ensures key in ka <==> key in kb {
        assert key in DenoteJson(a).members <==> key in DenoteJson(b).members;
      }
      IncreasingUnique(ka, kb);
      forall i | 0 <= i < |members| ensures members[i] == b.members[i] {
        var key := ka[i];
        assert key in DenoteJson(a).members;
        KeyBeforeOrders(key, key);
        assert MemberIndex(members, key) == i && MemberIndex(b.members, key) == i;
        OrderedUnique(members[i].value, b.members[i].value);
      }
    case _ =>
  }

  // ------------------------------------------------------------ the results

  ghost function Meaning(v: Value): Option<Data> {
    var d := Denote(v);
    if d.None? then None else Some(StripProto(d.value))
  }

  /** canonicalJson gives two values one text exactly when they are the same data up to
      key order at every depth -- once `__proto__` members, which it drops, are set aside. */
  lemma {:induction false} CanonicalIffSameMeaning(a: Value, b: Value)
    requires Valid(a) && Valid(b)
    ensures Canonical(a) == Canonical(b) <==> Meaning(a) == Meaning(b)
  {
    CanonicalTreeFaithful(a);
    CanonicalTreeFaithful(b);
    var ta, tb := ToJson(SortKeys(a)), ToJson(SortKeys(b));
    if ta.Some? && tb.Some? {
      if Canonical(a) == Canonical(b) {
        PrintInjective(ta.value, tb.value);
      }
      if Meaning(a) == Meaning(b) {
        OrderedUnique(ta.value, tb.value);
      }
    }
  }

  ghost predicate NoProtoKeys(v: Value) {
    match v
    case Arr(elements) => forall i | 0 <= i < |elements| :: NoProtoKeys(elements[i])
    case Obj(fields) =>
      forall i | 0 <= i < |fields| :: fields[i].key != PROTO && NoProtoKeys(fields[i].value)
    case _ => true
  }

  lemma {:induction false} NoProtoNothingStripped(v: Value)
    requires NoProtoKeys(v)
    ensures Meaning(v) == Denote(v)
  {
    match v
    case Arr(elements) =>
      var d := Denote(v).value;
      forall i | 0 <= i < |elements| ensures StripProto(d.elements[i]) == d.elements[i] {
        NoProtoNothingStripped(elements[i]);
      }
      assert StripProto(d).elements == d.elements;
    case Obj(fields) =>
      var d := Denote(v).value;
      forall key | key in d.members ensures key != PROTO && StripProto(d.members[key]) == d.members[key] {
        NoProtoNothingStripped(fields[IndexOf(fields, key)].value);
      }
      assert StripProto(d).members == d.members;
    case _ =>
  }

  /** Without `__proto__` keys: equal texts if and only if equal data. */
  lemma {:induction false} CanonicalIffSameData(a: Value, b: Value)
    requires Valid(a) && Valid(b) && NoProtoKeys(a) && NoProtoKeys(b)
    ensures Canonical(a) == Canonical(b) <==> Denote(a) == Denote(b)
  {
    CanonicalIffSameMeaning(a, b);
    NoProtoNothingStripped(a);
    NoProtoNothingStripped(b);
  }

  /** Why `__proto__` has to be set aside: {"__proto__": 1} and {} share one text. */
  lemma {:induction false} ProtoMemberIsInvisible()
    ensures var one := Obj([Field(PROTO, Bool(true))]);
            Valid(one) && Canonical(one) == Canonical(Obj([])) && Denote(one) != Denote(Obj([]))
  {
    var one := Obj([Field(PROTO, Bool(true))]);
    assert SortEach(one.fields) == [Field(PROTO, Bool(true))];
    assert SortFields(one.fields) == one.fields;
    assert one.fields[..0] == [];
    assert Assemble(one.fields) == [];
    assert SortKeys(one) == Obj([]) == SortKeys(Obj([]));
    assert one.fields[0].key in KeySet(one.fields);
    assert PROTO in Denote(one).value.members;
  }

  // "a": "x" and "b": [true, null]
  const FIRST: Field := Field([97], Str([120]))
  const SECOND: Field := Field([98], Arr([Bool(true), Null]))

  lemma {:induction false} CanonicalOfObject(fields: seq<Field>)
    ensures Canonical(Obj(fields)) == Some(Print(JObject(ToMembers(Assemble(SortFields(SortEach(fields)))))))
  {
  }

  /** By example: {b: [true, null], a: "x"} is {"a":"x","b":[true,null]}. */
  lemma {:induction false} CanonicalReads()
    ensures Canonical(Obj([SECOND, FIRST]))
         == Some(Ascii("{") + (Ascii("\"a\":\"x\"") + Ascii(",") + Ascii("\"b\":[true,null]")) + Ascii("}"))
  {
    hide *;
    CanonicalOfObject([SECOND, FIRST]);
    SampleSorts();
    SampleOrder();
    SampleTree();
    SamplePrints();
  }

  lemma {:induction false} SampleOrder()
    ensures Assemble(SortFields([SECOND, FIRST])) == [FIRST, SECOND]
  {
    assert LexBefore([97], [98]) && PROTO[0] == 95;
    SortsTwo(SECOND, FIRST);
  }

  lemma {:induction false} SampleSorts()
    ensures SortEach([SECOND, FIRST]) == [SECOND, FIRST]
  {
    var elements := [Bool(true), Null];
    assert SortKeys(Bool(true)) == Bool(true) && SortKeys(Null) == Null;
    assert SortKeys(Arr(elements)) == Arr(elements);
  }

  lemma {:induction false} SampleTree()
    ensures ToMembers([FIRST, SECOND]) == [Member([97], JString([120])), Member([98], JArray([JBool(true), JNull]))]
  {
    assert [FIRST, SECOND][1..] == [SECOND] && [SECOND][1..] == [];
    assert ElementJson(Bool(true)) == JBool(true) && ElementJson(Null) == JNull;
    assert ToJson(SECOND.value).value.items == [JBool(true), JNull];
    assert ToMembers([]) == [];
    assert ToMembers([SECOND]) == [Member([98], JArray([JBool(true), JNull]))];
  }

  lemma {:induction false} InsertBehind(a: Field, b: Field)
    requires !LexBefore(b.key, a.key)
    ensures InsertSorted([a], b) == [a, b]
  {
    assert [a][1..] == [] && InsertSorted([], b) == [b];
  }

  lemma {:induction false} SortsTwo(b: Field, a: Field)
    requires LexBefore(a.key, b.key) && !IsIndex(a.key) && !IsIndex(b.key) && a.key != PROTO && b.key != PROTO
    ensures Assemble(SortFields([b, a])) == [a, b]
  {
    LexTotal(a.key, b.key);
    InsertBehind(a, b);
    SortOne(a);
    assert [b, a][1..] == [a];
    assert SortFields([b, a]) == InsertSorted(SortFields([a]), b);
    hide SortFields, InsertSorted, LexBefore, IsIndex;
    assert [a, b][..1] == [a] && [a][..0] == [];
    assert Assemble([]) == [];
    assert Assemble([a]) == [a];
  }

  lemma {:induction false} SortOne(a: Field)
    ensures SortFields([a]) == [a]
  {
    assert [a][1..] == [] && SortFields([]) == [] && InsertSorted([], a) == [a];
  }

  lemma {:induction false} SamplePrints()
    ensures Print(JObject([Member([97], JString([120])), Member([98], JArray([JBool(true), JNull]))]))
         == Ascii("{") + (Ascii("\"a\":\"x\"") + Ascii(",") + Ascii("\"b\":[true,null]")) + Ascii("}")
  {
    var a, b := Member([97], JString([120])), Member([98], JArray([JBool(true), JNull]));
    MemberPrints();
    assert [a, b][1..] == [b];
    assert PrintMembers([b]) == PrintMember(b);
    assert PrintMembers([a, b]) == PrintMember(a) + [COMMA] + PrintMember(b);
    assert Ascii("{") == [OPEN_BRACE] && Ascii("}") == [CLOSE_BRACE] && Ascii(",") == [COMMA];
    hide Ascii, PrintMembers, PrintMember;
  }

  lemma {:induction false} MemberPrints()
    ensures PrintMember(Member([97], JString([120]))) == Ascii("\"a\":\"x\"")
    ensures PrintMember(Member([98], JArray([JBool(true), JNull]))) == Ascii("\"b\":[true,null]")
  {
    PlainPrints(97);
    PlainPrints(98);
    PlainPrints(120);
    ArrayPrints();
    SampleTexts();
    hide Ascii, PrintString, PrintItems, Escape;
  }

  lemma {:induction false} SampleTexts()
    ensures Ascii("\"a\":\"x\"") == [34, 97, 34] + [58] + [34, 120, 34]
    ensures Ascii("\"b\":[true,null]") == [34, 98, 34] + [58] + Ascii("[true,null]")
  {
    AsciiJoins("\"b\":", "[true,null]");
    assert "\"b\":" + "[true,null]" == "\"b\":[true,null]";
    assert Ascii("\"b\":") == [34, 98, 34] + [58];
  }

  lemma {:induction false} PlainPrints(u: Unit)
    requires 'a' as int <= u <= 'z' as int
    ensures PrintString([u]) == [34, u, 34]
  {
    assert [u][1..] == [] && Escape([]) == [];
    assert Escape([u]) == [u];
  }

  lemma {:induction false} ArrayPrints()
    ensures Print(JArray([JBool(true), JNull])) == Ascii("[true,null]")
  {
    assert [JBool(true), JNull][1..] == [JNull];
    assert PrintItems([JNull]) == NULL && Print(JBool(true)) == TRUE;
    assert PrintItems([JBool(true), JNull]) == TRUE + [COMMA] + NULL;
    AsciiJoins("[true", ",null]");
    assert "[true" + ",null]" == "[true,null]";
    assert Ascii("[true") == [OPEN_BRACKET] + TRUE && Ascii(",null]") == [COMMA] + NULL + [CLOSE_BRACKET];
    hide Ascii, PrintItems;
  }

  // --------------------------------------------------- storage round trip

  /** JSON.parse, on the tree its text prints. */
  function FromJson(j: Json): Value {
    match j
    case JNull => Null
    case JBool(b) => Bool(b)
    case JNumber(text) => Finite(text)
    case JString(s) => Str(s)
    case JArray(items) => Arr(seq(|items|, i requires 0 <= i < |items| => FromJson(items[i])))
    case JObject(members) =>
      Obj(seq(|members|, i requires 0 <= i < |members| => Field(members[i].key, FromJson(members[i].value))))
  }

  /** The value after JSON.parse(JSON.stringify(value)). */
  function Stored(v: Value): Value
    requires !v.Undefined?
  {
    FromJson(ToJson(v).value)
  }

  ghost predicate Survives(v: Value) {
    v.Undefined? || (Valid(Stored(v)) && Denote(Stored(v)) == Denote(v))
  }

  ghost predicate CameFrom(f: Field, fields: seq<Field>, k: int) {
    && 0 <= k < |fields|
    && fields[k].key == f.key
    && !fields[k].value.Undefined?
    && f.value == Stored(fields[k].value)
  }

  lemma {:induction false} StoredKeysDistinct(fields: seq<Field>)
    requires DistinctKeys(fields)
    ensures DistinctKeys(Stored(Obj(fields)).fields)
  {
    var members, stored := ToMembers(fields), Stored(Obj(fields)).fields;
    MembersStayDistinct(fields);
    forall i, j | 0 <= i < j < |stored| ensures stored[i].key != stored[j].key {
      assert MemberKeys(members)[i] != MemberKeys(members)[j];
    }
  }

  lemma {:induction false} StoredFieldOrigin(fields: seq<Field>, i: nat) returns (k: nat)
    requires i < |Stored(Obj(fields)).fields|
    ensures CameFrom(Stored(Obj(fields)).fields[i], fields, k)
  {
    var members := ToMembers(fields);
    MembersMirror(fields);
    assert members[i] in members;
    var f :| f in fields && f.key == members[i].key && ToJson(f.value) == Some(members[i].value);
    k :| 0 <= k < |fields| && fields[k] == f;
  }

  lemma {:induction false} StoredFieldCopy(fields: seq<Field>, k: nat) returns (i: nat)
    requires k < |fields| && !fields[k].value.Undefined?
    ensures i < |Stored(Obj(fields)).fields|
    ensures CameFrom(Stored(Obj(fields)).fields[i], fields, k)
  {
    var members := ToMembers(fields);
    var m := Member(fields[k].key, ToJson(fields[k].value).value);
    MembersMirror(fields);
    assert fields[k] in fields;
    i :| 0 <= i < |members| && members[i] == m;
  }

  lemma {:induction false} LookUp(fields: seq<Field>, k: nat)
    requires DistinctKeys(fields) && k < |fields|
    ensures fields[k].key in KeySet(fields) && IndexOf(fields, fields[k].key) == k
  {
    assert fields[k].key in KeySet(fields);
  }

  lemma {:induction false} ObjectSurvives(fields: seq<Field>)
    requires Valid(Obj(fields))
    requires forall i | 0 <= i < |fields| :: Survives(fields[i].value)
    ensures Survives(Obj(fields))
  {
    var stored := Stored(Obj(fields)).fields;
    StoredKeysDistinct(fields);
    forall i | 0 <= i < |stored| ensures Valid(stored[i].value) && !stored[i].value.Undefined? {
      var k := StoredFieldOrigin(fields, i);
      assert Survives(fields[k].value);
    }
    var before, after := Denote(Obj(fields)).value.members, Denote(Obj(stored)).value.members;
    forall key | key in after ensures key in before && before[key] == after[key] {
      var k := StoredFieldOrigin(fields, IndexOf(stored, key));
      LookUp(fields, k);
      assert Survives(fields[k].value);
    }
    forall key | key in before ensures key in after {
      var i := StoredFieldCopy(fields, IndexOf(fields, key));
      LookUp(stored, i);
    }
    assert before == after;
  }

  lemma {:induction false} StoredSurvives(v: Value)
    requires Valid(v)
    ensures Survives(v)
  {
    match v
    case Arr(elements) =>
      var items := ToJson(v).value.items;
      forall i | 0 <= i < |elements|
        ensures Valid(FromJson(items[i]))
        ensures Denote(FromJson(items[i])) == Some(Denote(v).value.elements[i])
      {
        StoredSurvives(elements[i]);
        assert items[i] == ElementJson(elements[i]);
      }
      assert Denote(Stored(v)).value.elements == Denote(v).value.elements;
    case Obj(fields) =>
      forall i | 0 <= i < |fields| ensures Survives(fields[i].value) {
        StoredSurvives(fields[i].value);
      }
      ObjectSurvives(fields);
    case _ =>
  }

  /** Field for field the same keys and the same data: the same object. */
  lemma {:induction false} ObjectCongruence(fa: seq<Field>, fb: seq<Field>)
    requires DistinctKeys(fa) && DistinctKeys(fb) && |fa| == |fb|
    requires forall i | 0 <= i < |fa| :: fa[i].key == fb[i].key && Denote(fa[i].value) == Denote(fb[i].value)
    ensures Denote(Obj(fa)) == Denote(Obj(fb))
  {
    var ma, mb := Denote(Obj(fa)).value.members, Denote(Obj(fb)).value.members;
    forall key | key in KeySet(fa) || key in KeySet(fb)
      ensures key in KeySet(fa) && key in KeySet(fb) && IndexOf(fa, key) == IndexOf(fb, key)
    {
      var k :| 0 <= k < |fa| && fa[k].key == key;
      LookUp(fa, k);
      LookUp(fb, k);
    }
    assert ma == mb;
  }

  /** A value with Dates, undefined members and NaN hashes the same before it is stored
      and after it came back, whatever order the store gave its keys. */
  lemma {:induction false} CanonicalSurvivesStorage(v: Value, readBack: Value)
    requires Valid(v) && Valid(readBack) && !v.Undefined?
    requires Denote(readBack) == Denote(Stored(v))
    ensures Canonical(readBack) == Canonical(v)
  {
    StoredSurvives(v);
    CanonicalIffSameMeaning(v, readBack);
  }

  /** An object prints from an opening brace, which no digest starts with. */
  lemma {:induction false} CanonicalObjectStarts(fields: seq<Field>)
    ensures Canonical(Obj(fields)).Some? && Canonical(Obj(fields)).value != []
    ensures Canonical(Obj(fields)).value[0] == OPEN_BRACE
  {
  }
}
