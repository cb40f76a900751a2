/**
 * The canonical JSON a confirm token signs: object keys sorted at every depth, `undefined` properties
 * dropped, everything JSON has no form for read as null. Two values print to the same text exactly
 * when they are the same up to those three things.
 */
module CanonicalJson {
  import opened Common
  import opened Sorting
  import opened JsonText

  /** A value as a program holds it; `Boxed` has a `toJSON`, `Unprintable` (a function, NaN) no JSON form. */
  datatype JsValue =
    | Undefined
    | Null
    | Bool(b: bool)
    | Number(n: int)
    | String(s: Text)
    | Array(items: seq<JsValue>)
    | Object(entries: seq<Entry>)
    | Boxed(json: JsValue)
    | Unprintable

  datatype Entry = Entry(key: Text, value: JsValue)

  /** An object has a key once. */
  predicate KeysDiffer(entries: seq<Entry>) {
    forall i, j :: 0 <= i < j < |entries| ==> entries[i].key != entries[j].key
  }

  lemma KeysSay(entries: seq<Entry>)
    ensures KeysDiffer(entries) <==>
              forall i, j :: 0 <= i < |entries| && 0 <= j < |entries| && entries[i].key == entries[j].key ==> i == j
  {
  }

  predicate Proper(v: JsValue) {
    match v
    case Array(items) => forall i :: 0 <= i < |items| ==> Proper(items[i])
    case Object(entries) =>
      KeysDiffer(entries) && forall i :: 0 <= i < |entries| ==> Proper(entries[i].value)
    case Boxed(w) => Proper(w)
    case _ => true
  }

  // ----- The canonical text -----

  /** A property on its way into the text: its key, and its value's text. */
  datatype Pair = Pair(key: Text, text: Text)

  predicate PairLess(a: Pair, b: Pair) {
    TextLess(a.key, b.key)
  }

  function Canonical(v: JsValue): Text {
    match v
    case Undefined => NULL
    case Null => NULL
    case Unprintable => NULL
    case Bool(b) => if b then TRUE else FALSE
    case Number(n) => Decimal(n)
    case String(s) => Quote(s)
    case Array(items) => [LBRACKET] + CanonicalItems(items) + [RBRACKET]
    case Boxed(w) => Canonical(w)
    case Object(entries) => [LBRACE] + Joined(Sort(Pairs(entries), PairLess)) + [RBRACE]
  }

  function CanonicalItems(items: seq<JsValue>): Text {
    if items == [] then []
    else Canonical(items[0]) + (if |items| == 1 then [] else [COMMA] + CanonicalItems(items[1..]))
  }

  /** The defined properties. */
  function Pairs(entries: seq<Entry>): seq<Pair> {
    if entries == [] then []
    else
      (if entries[0].value.Undefined? then [] else [Pair(entries[0].key, Canonical(entries[0].value))])
      + Pairs(entries[1..])
  }

  function Joined(pairs: seq<Pair>): Text {
    if pairs == [] then []
    else
      Quote(pairs[0].key) + [COLON] + pairs[0].text
      + (if |pairs| == 1 then [] else [COMMA] + Joined(pairs[1..]))
  }

  // ----- The value it stands for -----

  predicate FieldLess(a: Field, b: Field) {
    TextLess(a.key, b.key)
  }

  function Normal(v: JsValue): Json {
    match v
    case Undefined => JNull
    case Null => JNull
    case Unprintable => JNull
    case Bool(b) => JBool(b)
    case Number(n) => JNum(n)
    case String(s) => JStr(s)
    case Array(items) => JArr(NormalItems(items))
    case Boxed(w) => Normal(w)
    case Object(entries) => JObj(Sort(Fields(entries), FieldLess))
  }

  function NormalItems(items: seq<JsValue>): (r: seq<Json>)
    ensures |r| == |items|
    ensures forall i :: 0 <= i < |items| ==> r[i] == Normal(items[i])
  {
    if items == [] then [] else [Normal(items[0])] + NormalItems(items[1..])
  }

  function Fields(entries: seq<Entry>): seq<Field> {
    if entries == [] then []
    else
      (if entries[0].value.Undefined? then [] else [Field(entries[0].key, Normal(entries[0].value))])
      + Fields(entries[1..])
  }

  function PairOf(f: Field): Pair {
    Pair(f.key, Print(f.value))
  }

  function PairsOf(fields: seq<Field>): (r: seq<Pair>)
    ensures |r| == |fields| && forall i :: 0 <= i < |r| ==> r[i] == PairOf(fields[i])
  {
    seq(|fields|, i requires 0 <= i < |fields| => PairOf(fields[i]))
  }

  lemma PairsOfMore(f: Field, rest: seq<Field>)
    ensures PairsOf([f] + rest) == [PairOf(f)] + PairsOf(rest)
  {
  }

  lemma {:induction false} InsertCommutes(f: Field, fields: seq<Field>)
    ensures Insert(PairOf(f), PairsOf(fields), PairLess) == PairsOf(Insert(f, fields, FieldLess))
  {
    if fields == [] {
      assert PairsOf([f]) == [PairOf(f)];
    } else {
      var rest := fields[1..];
      assert fields == [fields[0]] + rest;
      PairsOfMore(fields[0], rest);
      if FieldLess(fields[0], f) {
        InsertCommutes(f, rest);
        PairsOfMore(fields[0], Insert(f, rest, FieldLess));
      } else {
        PairsOfMore(f, fields);
      }
    }
  }

  /** Sorting by key, then printing values, is printing values, then sorting by key. */
  lemma {:induction false} SortCommutes(fields: seq<Field>)
    ensures Sort(PairsOf(fields), PairLess) == PairsOf(Sort(fields, FieldLess))
  {
    if fields != [] {
      SortCommutes(fields[1..]);
      assert PairsOf(fields)[1..] == PairsOf(fields[1..]);
      InsertCommutes(fields[0], Sort(fields[1..], FieldLess));
    }
  }

  lemma {:induction false} JoinedFields(fields: seq<Field>)
    ensures Joined(PairsOf(fields)) == PrintFields(fields)
  {
    if fields != [] {
      JoinedFields(fields[1..]);
      assert PairsOf(fields)[1..] == PairsOf(fields[1..]);
    }
  }

  /** The canonical text is the text of the normal form. */
  lemma {:induction false} CanonicalPrintsNormal(v: JsValue)
    ensures Canonical(v) == Print(Normal(v))
    decreases v
  {
    match v
    case Array(items) => CanonicalItemsPrint(items);
    case Boxed(w) => CanonicalPrintsNormal(w);
    case Object(entries) =>
      PairsPrint(entries);
      ObjectPrints(entries);
    case _ =>
  }

  lemma FieldsText(fields: seq<Field>)
    ensures Print(JObj(fields)) == [LBRACE] + PrintFields(fields) + [RBRACE]
  {
  }

  lemma ObjectPrints(entries: seq<Entry>)
    requires Pairs(entries) == PairsOf(Fields(entries))
    ensures Canonical(Object(entries)) == Print(Normal(Object(entries)))
  {
    var sorted := Sort(Fields(entries), FieldLess);
    FieldsText(sorted);
    SortCommutes(Fields(entries));
    JoinedFields(sorted);
  }

  lemma {:induction false} CanonicalItemsPrint(items: seq<JsValue>)
    ensures CanonicalItems(items) == PrintItems(NormalItems(items))
    decreases items
  {
    if items != [] {
      CanonicalPrintsNormal(items[0]);
      CanonicalItemsPrint(items[1..]);
      assert NormalItems(items)[1..] == NormalItems(items[1..]);
    }
  }

  lemma {:induction false} PairsPrint(entries: seq<Entry>)
    ensures Pairs(entries) == PairsOf(Fields(entries))
    decreases entries
  {
    if entries != [] {
      CanonicalPrintsNormal(entries[0].value);
      PairsPrint(entries[1..]);
      assert PairsOf(Fields(entries)) == Pairs(entries);
    }
  }

  // ----- When two values are the same -----

  /** The defined property `key`, if the object has one. */
  function Lookup(entries: seq<Entry>, key: Text): (r: Option<JsValue>)
    ensures r.Some? ==> exists i :: 0 <= i < |entries| && entries[i].value == r.value
  {
    if entries == [] then None
    else if entries[0].key == key && !entries[0].value.Undefined? then Some(entries[0].value)
    else
      var r := Lookup(entries[1..], key);
      assert r.Some? ==> exists i :: 0 <= i < |entries[1..]| && entries[1..][i].value == r.value;
      assert forall i :: 0 <= i < |entries[1..]| ==> entries[i + 1] == entries[1..][i];
      r
  }

  predicate IsNull(v: JsValue) {
    v.Undefined? || v.Null? || v.Unprintable?
  }

  /**
   * Equal up to key order, dropped `undefined` properties, and what is read as null: said without any
   * sorting or printing.
   */
  ghost predicate Same(v: JsValue, w: JsValue)
    decreases v, w
  {
    if v.Boxed? then Same(v.json, w)
    else if w.Boxed? then Same(v, w.json)
    else if IsNull(v) || IsNull(w) then IsNull(v) && IsNull(w)
    else if v.Array? && w.Array? then
      |v.items| == |w.items| && forall i :: 0 <= i < |v.items| ==> Same(v.items[i], w.items[i])
    else if v.Object? && w.Object? then SameProperties(v.entries, w.entries)
    else v == w
  }

  ghost predicate SameProperties(a: seq<Entry>, b: seq<Entry>)
    decreases a, b, 1
  {
    forall key :: SameProperty(a, b, key)
  }

  ghost predicate SameProperty(a: seq<Entry>, b: seq<Entry>, key: Text)
    decreases a, b, 0
  {
    var p, q := Lookup(a, key), Lookup(b, key);
    (p.None? && q.None?) || (p.Some? && q.Some? && Same(p.value, q.value))
  }

  // ----- Same values have one normal form -----

  /** The value of a field, if there is one. */
  function FieldAt(fields: seq<Field>, key: Text): Option<Json> {
    if fields == [] then None
    else if fields[0].key == key then Some(fields[0].value)
    else FieldAt(fields[1..], key)
  }

  predicate FieldKeysDiffer(fields: seq<Field>) {
    forall i, j :: 0 <= i < j < |fields| ==> fields[i].key != fields[j].key
  }

  lemma {:induction false} FieldAtIs(fields: seq<Field>, f: Field)
    requires FieldKeysDiffer(fields)
    ensures f in fields <==> FieldAt(fields, f.key) == Some(f.value)
  {
    if fields != [] {
      FieldAtIs(fields[1..], f);
      if f in fields && f != fields[0] {
        var i :| 0 <= i < |fields| && fields[i] == f;
        assert fields[1..][i - 1] == f;
      }
    }
  }

  lemma {:induction false} FieldsAre(entries: seq<Entry>)
    requires KeysDiffer(entries)
    ensures FieldKeysDiffer(Fields(entries))
    ensures forall f :: f in Fields(entries) ==> exists i :: 0 <= i < |entries| && entries[i].key == f.key
  {
    if entries != [] {
      var rest := entries[1..];
      FieldsAre(rest);
      assert forall i :: 0 <= i < |rest| ==> rest[i] == entries[i + 1];
      forall f | f in Fields(rest) ensures exists i :: 0 < i < |entries| && entries[i].key == f.key {
        var i :| 0 <= i < |rest| && rest[i].key == f.key;
        assert entries[i + 1].key == f.key;
      }
    }
  }

  lemma {:induction false} FieldAtIsLookup(entries: seq<Entry>, key: Text)
    ensures FieldAt(Fields(entries), key)
            == match Lookup(entries, key) case None => None case Some(v) => Some(Normal(v))
  {
    if entries != [] {
      FieldAtIsLookup(entries[1..], key);
      var f := Field(entries[0].key, Normal(entries[0].value));
      assert ([f] + Fields(entries[1..]))[1..] == Fields(entries[1..]);
      assert [] + Fields(entries[1..]) == Fields(entries[1..]);
    }
  }

  lemma {:induction false} DifferentKeysDistinct(fields: seq<Field>)
    requires FieldKeysDiffer(fields)
    ensures Distinct(fields) && NoTies(fields, FieldLess)
  {
    forall x, y | x in fields && y in fields && x != y ensures FieldLess(x, y) || FieldLess(y, x) {
      TextLessTotal(x.key, y.key);
    }
  }

  lemma FieldLessStrictWeak()
    ensures StrictWeakOrder(FieldLess)
  {
    forall x ensures !FieldLess(x, x) {
      TextLessIrreflexive(x.key);
    }
    forall x, y, z | FieldLess(x, y) && FieldLess(y, z) ensures FieldLess(x, z) {
      TextLessTransitive(x.key, y.key, z.key);
    }
    forall x, y, z | !FieldLess(x, y) && !FieldLess(y, z) ensures !FieldLess(x, z) {
      NotLessTransitive(x.key, y.key, z.key);
    }
  }

  lemma NotLessTransitive(a: Text, b: Text, c: Text)
    requires !TextLess(a, b) && !TextLess(b, c)
    ensures !TextLess(a, c)
  {
    TextLessTotal(a, b);
    TextLessTotal(b, c);
    if TextLess(b, a) && TextLess(c, b) {
      TextLessTransitive(c, b, a);
    }
    if a == b {
    } else if b == c {
    }
  }

  /** Objects with the same value under every key sort to the same fields. */
  lemma SameLookupsSortAlike(a: seq<Field>, b: seq<Field>)
    requires FieldKeysDiffer(a) && FieldKeysDiffer(b)
    requires forall key :: FieldAt(a, key) == FieldAt(b, key)
    ensures Sort(a, FieldLess) == Sort(b, FieldLess)
  {
    DifferentKeysDistinct(a);
    DifferentKeysDistinct(b);
    forall f ensures f in a <==> f in b {
      FieldAtIs(a, f);
      FieldAtIs(b, f);
    }
    SameMembersSameMultiset(a, b);
    FieldLessStrictWeak();
    SortIgnoresOrder(a, b, FieldLess);
  }

  /** And only those do. */
  lemma SortAlikeSameLookups(a: seq<Field>, b: seq<Field>, key: Text)
    requires FieldKeysDiffer(a) && FieldKeysDiffer(b)
    requires Sort(a, FieldLess) == Sort(b, FieldLess)
    ensures FieldAt(a, key) == FieldAt(b, key)
  {
    assert multiset(Sort(a, FieldLess)) == multiset(a) && multiset(Sort(b, FieldLess)) == multiset(b);
    SameElements(a, b);
    FieldAtFollows(a, b, key);
    FieldAtFollows(b, a, key);
  }

  lemma FieldAtFollows(a: seq<Field>, b: seq<Field>, key: Text)
    requires FieldKeysDiffer(a) && FieldKeysDiffer(b) && forall f :: f in a ==> f in b
    ensures FieldAt(a, key).Some? ==> FieldAt(b, key) == FieldAt(a, key)
  {
    if FieldAt(a, key).Some? {
      var f := Field(key, FieldAt(a, key).value);
      FieldAtIs(a, f);
      FieldAtIs(b, f);
    }
  }

  /** Under one key, the same property is the same field. */
  lemma {:induction false} SamePropertyIffField(a: seq<Entry>, b: seq<Entry>, key: Text)
    requires Proper(Object(a)) && Proper(Object(b))
    ensures SameProperty(a, b, key) <==> FieldAt(Fields(a), key) == FieldAt(Fields(b), key)
    decreases a, b, 0
  {
    FieldAtIsLookup(a, key);
    FieldAtIsLookup(b, key);
    var p, q := Lookup(a, key), Lookup(b, key);
    if p.Some? && q.Some? {
      SameIffNormal(p.value, q.value);
    }
  }

  lemma ObjectsNormalAlike(a: seq<Entry>, b: seq<Entry>)
    requires KeysDiffer(a) && KeysDiffer(b)
    requires forall key :: FieldAt(Fields(a), key) == FieldAt(Fields(b), key)
    ensures Normal(Object(a)) == Normal(Object(b))
  {
    FieldsAre(a);
    FieldsAre(b);
    SameLookupsSortAlike(Fields(a), Fields(b));
  }

  lemma NormalAlikeObjects(a: seq<Entry>, b: seq<Entry>, key: Text)
    requires KeysDiffer(a) && KeysDiffer(b)
    requires Normal(Object(a)) == Normal(Object(b))
    ensures FieldAt(Fields(a), key) == FieldAt(Fields(b), key)
  {
    FieldsAre(a);
    FieldsAre(b);
    SortAlikeSameLookups(Fields(a), Fields(b), key);
  }

  lemma {:induction false} SameObjectsIffNormal(a: seq<Entry>, b: seq<Entry>)
    requires Proper(Object(a)) && Proper(Object(b))
    ensures SameProperties(a, b) <==> Normal(Object(a)) == Normal(Object(b))
    decreases a, b, 1
  {
    forall key ensures SameProperty(a, b, key) <==> FieldAt(Fields(a), key) == FieldAt(Fields(b), key) {
      SamePropertyIffField(a, b, key);
    }
    if SameProperties(a, b) {
      forall key ensures FieldAt(Fields(a), key) == FieldAt(Fields(b), key) {
        assert SameProperty(a, b, key);
      }
      ObjectsNormalAlike(a, b);
    }
    if Normal(Object(a)) == Normal(Object(b)) {
      forall key ensures SameProperty(a, b, key) {
        NormalAlikeObjects(a, b, key);
      }
    }
  }

  lemma {:induction false} SameItemsIffNormal(a: seq<JsValue>, b: seq<JsValue>)
    requires Proper(Array(a)) && Proper(Array(b))
    ensures (|a| == |b| && forall i :: 0 <= i < |a| ==> Same(a[i], b[i]))
            <==> NormalItems(a) == NormalItems(b)
    decreases a, b
  {
    if |a| == |b| {
      forall i | 0 <= i < |a| ensures Same(a[i], b[i]) <==> Normal(a[i]) == Normal(b[i]) {
        SameIffNormal(a[i], b[i]);
      }
      if NormalItems(a) == NormalItems(b) {
        forall i | 0 <= i < |a| ensures Same(a[i], b[i]) {
          assert NormalItems(a)[i] == NormalItems(b)[i];
        }
      }
    }
  }

  lemma SimpleSame(v: JsValue, w: JsValue)
    requires !v.Boxed? && !w.Boxed? && !(v.Array? && w.Array?) && !(v.Object? && w.Object?)
    ensures Same(v, w) <==> Normal(v) == Normal(w)
  {
  }

  /** Two values are the same exactly when they have one normal form. */
  lemma {:induction false} SameIffNormal(v: JsValue, w: JsValue)
    requires Proper(v) && Proper(w)
    ensures Same(v, w) <==> Normal(v) == Normal(w)
    decreases v, w
  {
    if v.Boxed? {
      SameIffNormal(v.json, w);
    } else if w.Boxed? {
      SameIffNormal(v, w.json);
    } else if v.Array? && w.Array? {
      SameItemsIffNormal(v.items, w.items);
    } else if v.Object? && w.Object? {
      SameObjectsIffNormal(v.entries, w.entries);
      assert v == Object(v.entries) && w == Object(w.entries);
    } else {
      SimpleSame(v, w);
    }
  }

  /**
   * Canonical JSON is unambiguous: two values print to the same text exactly when they are the same
   * up to key order, dropped `undefined` properties, and `undefined` (or the unprintable) read as null.
   */
  lemma CanonicalUnambiguous(v: JsValue, w: JsValue)
    requires Proper(v) && Proper(w)
    ensures Canonical(v) == Canonical(w) <==> Same(v, w)
  {
    CanonicalPrintsNormal(v);
    CanonicalPrintsNormal(w);
    SameIffNormal(v, w);
    if Canonical(v) == Canonical(w) {
      PrintInjective(Normal(v), Normal(w));
    }
  }
}
