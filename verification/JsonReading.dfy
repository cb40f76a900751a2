/**
 * Reading back what was printed: the printed text is JSON text of the value it was printed from, by the
 * grammar of RFC 8259 (sections 3 to 7), without any white space; and the normal form of a program's
 * value holds what the value does.
 */
module JsonReading {
  import opened Common
  import opened Sorting
  import opened JsonText
  import opened CanonicalJson

  // ----- Numbers -----

  function Value(t: Text): (n: int) {
    if t == [] then 0
    else
      var last: int := t[|t| - 1];
      10 * Value(t[..|t| - 1]) + last - 48
  }

  /** Decimal digits of `n`, with no zero in front of others. */
  predicate IsDigits(t: Text, n: int) {
    && |t| >= 1 && (forall i :: 0 <= i < |t| ==> 48 <= t[i] <= 57)
    && (|t| >= 2 ==> t[0] != 48)
    && Value(t) == n
  }

  predicate IsNumeral(t: Text, n: int) {
    if n < 0 then t != [] && t[0] == 45 && IsDigits(t[1..], -n) else IsDigits(t, n)
  }

  lemma {:induction false} DigitsRead(n: nat)
    ensures IsDigits(Digits(n), n) && (n > 0 ==> Digits(n)[0] != 48)
  {
    if n >= 10 {
      DigitsRead(n / 10);
      var t := Digits(n);
      assert t[..|t| - 1] == Digits(n / 10);
    } else {
      assert Value([]) == 0 && [0x30 + n][..0] == [];
    }
  }

  lemma DecimalReads(n: int)
    ensures IsNumeral(Decimal(n), n)
  {
    if n < 0 {
      DigitsRead(-n);
      assert Decimal(n)[1..] == Digits(-n);
    } else {
      DigitsRead(n);
    }
  }

  // ----- Strings -----

  function HexValue(c: Unit): (v: Option<int>) {
    if 48 <= c <= 57 then Some(c - 48)
    else if 97 <= c <= 102 then Some(c - 87)
    else if 65 <= c <= 70 then Some(c - 55)
    else None
  }

  /** The unit a two-character escape stands for. */
  function Unescaped(c: Unit): (v: Option<Unit>) {
    if c == 34 || c == 47 || c == 92 then Some(c)
    else if c == 98 then Some(8)
    else if c == 116 then Some(9)
    else if c == 110 then Some(10)
    else if c == 102 then Some(12)
    else if c == 114 then Some(13)
    else None
  }

  /** The string between two quotes, if it is one. */
  function Decode(t: Text): (s: Option<Text>) {
    if t == [] then Some([])
    else if t[0] == 92 then
      if |t| >= 6 && t[1] == 117 then
        match (HexValue(t[2]), HexValue(t[3]), HexValue(t[4]), HexValue(t[5]))
        case (Some(a), Some(b), Some(c), Some(d)) =>
          Prefixed(Ranged(4096 * a + 256 * b + 16 * c + d), Decode(t[6..]))
        case _ => None
      else if |t| >= 2 then Prefixed(Unescaped(t[1]), Decode(t[2..]))
      else None
    else if t[0] == 34 || t[0] < 32 then None
    else Prefixed(Some(t[0]), Decode(t[1..]))
  }

  function Ranged(n: int): (c: Option<Unit>) {
    if 0 <= n < 65536 then Some(n) else None
  }

  function Prefixed(first: Option<Unit>, rest: Option<Text>): (s: Option<Text>) {
    match (first, rest)
    case (Some(c), Some(s)) => Some([c] + s)
    case _ => None
  }

  lemma HexDigitReads(n: int)
    requires 0 <= n < 16
    ensures HexValue(HexDigit(n)) == Some(n)
  {
  }

  lemma HexPlaces(c: Unit)
    ensures 4096 * (c / 4096) + 256 * (c / 256 % 16) + 16 * (c / 16 % 16) + c % 16 == c
    ensures 0 <= c / 4096 < 16
  {
    assert c / 16 == 16 * (c / 256) + c / 16 % 16 by {
      assert c / 256 == c / 16 / 16;
    }
    assert c / 256 == 16 * (c / 4096) + c / 256 % 16 by {
      assert c / 4096 == c / 256 / 16;
    }
  }

  lemma Hex4Reads(c: Unit, rest: Text)
    ensures Decode([92, 117] + Hex4(c) + rest) == Prefixed(Some(c), Decode(rest))
  {
    var t := [92, 117] + Hex4(c) + rest;
    HexPlaces(c);
    HexDigitReads(c / 4096);
    HexDigitReads(c / 256 % 16);
    HexDigitReads(c / 16 % 16);
    HexDigitReads(c % 16);
    assert t[0] == 92 && t[1] == 117 && t[2] == Hex4(c)[0] && t[3] == Hex4(c)[1] && t[4] == Hex4(c)[2]
           && t[5] == Hex4(c)[3];
    assert t[6..] == rest;
  }

  lemma PlainReads(c: Unit, rest: Text)
    requires c != 92 && c != 34 && c >= 32
    ensures Decode([c] + rest) == Prefixed(Some(c), Decode(rest))
  {
    assert ([c] + rest)[1..] == rest;
  }

  lemma EscapeReads(c: Unit, rest: Text)
    ensures Decode(Escape(c) + rest) == Prefixed(Some(c), Decode(rest))
  {
    if Short(c).Some? {
      var t := [BACKSLASH, Short(c).value] + rest;
      assert t[2..] == rest;
    } else if c < 0x20 || IsHigh(c) || IsLow(c) {
      Hex4Reads(c, rest);
    } else {
      PlainReads(c, rest);
    }
  }

  lemma WrittenReads(s: Text, rest: Text)
    requires s != [] && Decode(rest) == Some(s[|Head(s)|..])
    ensures Decode(Written(s) + rest) == Some(s)
  {
    if IsPair(s) {
      assert [s[0], s[1]] + rest == [s[0]] + ([s[1]] + rest);
      PlainReads(s[1], rest);
      PlainReads(s[0], [s[1]] + rest);
      assert s == [s[0]] + ([s[1]] + s[2..]);
    } else {
      EscapeReads(s[0], rest);
      assert s == [s[0]] + s[1..];
    }
  }

  /** The body of a printed string decodes to the string, whatever units it has. */
  lemma {:induction false} BodyReads(s: Text)
    ensures Decode(Body(s)) == Some(s)
    decreases |s|
  {
    if s != [] {
      BodyReads(s[|Head(s)|..]);
      WrittenReads(s, Body(s[|Head(s)|..]));
    }
  }

  predicate IsString(t: Text, s: Text) {
    |t| >= 2 && t[0] == 34 && t[|t| - 1] == 34 && Decode(t[1..|t| - 1]) == Some(s)
  }

  lemma QuoteReads(s: Text)
    ensures IsString(Quote(s), s)
  {
    BodyReads(s);
    assert Quote(s)[1..|Quote(s)| - 1] == Body(s);
  }

  /**
   * Which units are escaped, and how: a quote, a backslash and five controls by two characters, every
   * other control and a surrogate without its half by four lower-case digits, no other unit.
   */
  lemma EscapeSays(c: Unit)
    ensures var letter := if c == 34 || c == 92 then c else if c == 8 then 98 else if c == 9 then 116
                          else if c == 10 then 110 else if c == 12 then 102 else if c == 13 then 114 else 0;
            if letter != 0 then Escape(c) == [92, letter]
            else if c < 32 || 0xD800 <= c <= 0xDFFF then
              && |Escape(c)| == 6 && Escape(c)[..2] == [92, 117]
              && (forall i :: 2 <= i < 6 ==> 48 <= Escape(c)[i] <= 57 || 97 <= Escape(c)[i] <= 102)
            else Escape(c) == [c]
  {
    HexPlaces(c);
  }

  /** A surrogate with its half behind it is written as it is. */
  lemma PairsStay(s: Text)
    requires |s| >= 1
    ensures var paired := |s| >= 2 && 0xD800 <= s[0] <= 0xDBFF && 0xDC00 <= s[1] <= 0xDFFF;
            && Body([]) == []
            && Body(s) == if paired then [s[0], s[1]] + Body(s[2..]) else Escape(s[0]) + Body(s[1..])
  {
  }

  // ----- Values -----

  /** The texts with a comma between each two. */
  function Listed(texts: seq<Text>): (t: Text) {
    if texts == [] then []
    else if |texts| == 1 then texts[0]
    else texts[0] + [44] + Listed(texts[1..])
  }

  /** `t` is JSON text of `j`. */
  ghost predicate Reads(t: Text, j: Json)
    decreases j
  {
    match j
    case JNull => t == [110, 117, 108, 108]
    case JBool(true) => t == [116, 114, 117, 101]
    case JBool(false) => t == [102, 97, 108, 115, 101]
    case JNum(n) => IsNumeral(t, n)
    case JStr(s) => IsString(t, s)
    case JArr(items) =>
      exists texts: seq<Text> ::
        && t == [91] + Listed(texts) + [93] && |texts| == |items|
        && forall i :: 0 <= i < |items| ==> Reads(texts[i], items[i])
    case JObj(fields) =>
      exists texts: seq<Text> ::
        && t == [123] + Listed(texts) + [125] && |texts| == |fields|
        && forall i :: 0 <= i < |fields| ==> ReadsField(texts[i], fields[i])
  }

  ghost predicate ReadsField(t: Text, f: Field)
    decreases f
  {
    exists key: Text, value: Text ::
      t == key + [58] + value && IsString(key, f.key) && Reads(value, f.value)
  }

  function ItemTexts(items: seq<Json>): (texts: seq<Text>)
    ensures |texts| == |items| && forall i :: 0 <= i < |items| ==> texts[i] == Print(items[i])
  {
    seq(|items|, i requires 0 <= i < |items| => Print(items[i]))
  }

  function FieldTexts(fields: seq<Field>): (texts: seq<Text>)
    ensures |texts| == |fields| && forall i :: 0 <= i < |fields| ==> texts[i] == PrintField(fields[i])
  {
    seq(|fields|, i requires 0 <= i < |fields| => PrintField(fields[i]))
  }

  lemma {:induction false} ItemsListed(items: seq<Json>)
    ensures PrintItems(items) == Listed(ItemTexts(items))
  {
    if |items| > 1 {
      ItemsListed(items[1..]);
      assert ItemTexts(items)[1..] == ItemTexts(items[1..]);
      assert Print(items[0]) + ([COMMA] + PrintItems(items[1..])) == Print(items[0]) + [44] + PrintItems(items[1..]);
    } else if |items| == 1 {
      assert Print(items[0]) + [] == Print(items[0]);
    }
  }

  lemma {:induction false} FieldsListed(fields: seq<Field>)
    ensures PrintFields(fields) == Listed(FieldTexts(fields))
  {
    if |fields| > 1 {
      FieldsListed(fields[1..]);
      assert FieldTexts(fields)[1..] == FieldTexts(fields[1..]);
      assert PrintField(fields[0]) + ([COMMA] + PrintFields(fields[1..]))
             == PrintField(fields[0]) + [44] + PrintFields(fields[1..]);
    } else if |fields| == 1 {
      assert PrintField(fields[0]) + [] == PrintField(fields[0]);
    }
  }

  lemma Literals()
    ensures NULL == [110, 117, 108, 108] && TRUE == [116, 114, 117, 101] && FALSE == [102, 97, 108, 115, 101]
  {
  }

  lemma {:induction false} FieldReads(f: Field)
    ensures ReadsField(PrintField(f), f)
    decreases f, 1
  {
    QuoteReads(f.key);
    PrintReads(f.value);
    assert PrintField(f) == Quote(f.key) + [58] + Print(f.value);
  }

  lemma ArrayReads(items: seq<Json>)
    requires forall i :: 0 <= i < |items| ==> Reads(Print(items[i]), items[i])
    ensures Reads(Print(JArr(items)), JArr(items))
  {
    ItemsListed(items);
    var texts := ItemTexts(items);
    assert Print(JArr(items)) == [91] + Listed(texts) + [93];
  }

  lemma ObjectReads(fields: seq<Field>)
    requires forall i :: 0 <= i < |fields| ==> ReadsField(PrintField(fields[i]), fields[i])
    ensures Reads(Print(JObj(fields)), JObj(fields))
  {
    FieldsListed(fields);
    var texts := FieldTexts(fields);
    assert Print(JObj(fields)) == [123] + Listed(texts) + [125];
  }

  /** Printing a value gives JSON text of that value. */
  lemma {:induction false} PrintReads(j: Json)
    ensures Reads(Print(j), j)
    decreases j, 0
  {
    match j
    case JNull => Literals();
    case JBool(b) => Literals();
    case JNum(n) => DecimalReads(n);
    case JStr(s) => QuoteReads(s);
    case JArr(items) =>
      forall i | 0 <= i < |items| ensures Reads(Print(items[i]), items[i]) {
        PrintReads(items[i]);
      }
      ArrayReads(items);
    case JObj(fields) =>
      forall i | 0 <= i < |fields| ensures ReadsField(PrintField(fields[i]), fields[i]) {
        FieldReads(fields[i]);
      }
      ObjectReads(fields);
  }

  // ----- What a normal form holds -----

  predicate Ordered(fields: seq<Field>) {
    forall i, j :: 0 <= i < j < |fields| ==> TextLess(fields[i].key, fields[j].key)
  }

  /** The normal form of the value holds what the value does: properties by key, none of them undefined. */
  ghost predicate Holds(j: Json, v: JsValue)
    decreases v
  {
    match v
    case Undefined => j == JNull
    case Null => j == JNull
    case Unprintable => j == JNull
    case Bool(b) => j == JBool(b)
    case Number(n) => j == JNum(n)
    case String(s) => j == JStr(s)
    case Boxed(w) => Holds(j, w)
    case Array(items) =>
      j.JArr? && |j.items| == |items| && forall i :: 0 <= i < |items| ==> Holds(j.items[i], items[i])
    case Object(entries) =>
      && j.JObj? && Ordered(j.fields)
      && (forall k :: 0 <= k < |j.fields| ==> ComesFrom(j.fields[k], entries))
      && (forall i :: 0 <= i < |entries| && entries[i].value != Undefined ==> GoesInto(entries[i], j.fields))
  }

  /** The field is one of the properties. */
  ghost predicate ComesFrom(f: Field, entries: seq<Entry>)
    decreases entries, 0
  {
    exists i :: 0 <= i < |entries| && entries[i].key == f.key && entries[i].value != Undefined
      && Holds(f.value, entries[i].value)
  }

  /** The property is one of the fields. */
  ghost predicate GoesInto(e: Entry, fields: seq<Field>)
    decreases e, 0
  {
    exists k :: 0 <= k < |fields| && fields[k].key == e.key && Holds(fields[k].value, e.value)
  }

  lemma {:induction false} FieldsComeFrom(entries: seq<Entry>, f: Field)
    requires f in Fields(entries)
    ensures exists i :: 0 <= i < |entries| && entries[i].value != Undefined
              && f == Field(entries[i].key, Normal(entries[i].value))
  {
    var here := if entries[0].value.Undefined? then [] else [Field(entries[0].key, Normal(entries[0].value))];
    if f in here {
      assert f == Field(entries[0].key, Normal(entries[0].value));
    } else {
      assert f in Fields(entries[1..]);
      FieldsComeFrom(entries[1..], f);
      var i :| 0 <= i < |entries[1..]| && entries[1..][i].value != Undefined
               && f == Field(entries[1..][i].key, Normal(entries[1..][i].value));
      assert entries[i + 1] == entries[1..][i];
    }
  }

  lemma {:induction false} EntriesGoInto(entries: seq<Entry>, i: nat)
    requires i < |entries| && entries[i].value != Undefined
    ensures Field(entries[i].key, Normal(entries[i].value)) in Fields(entries)
  {
    if i > 0 {
      EntriesGoInto(entries[1..], i - 1);
    }
  }

  lemma {:induction false} FieldsDiffer(entries: seq<Entry>)
    requires KeysDiffer(entries)
    ensures FieldKeysDiffer(Fields(entries))
  {
    if entries != [] {
      var rest := entries[1..];
      assert KeysDiffer(rest);
      FieldsDiffer(rest);
      forall k | 0 <= k < |Fields(rest)| ensures Fields(rest)[k].key != entries[0].key {
        FieldsComeFrom(rest, Fields(rest)[k]);
        var i :| 0 <= i < |rest| && rest[i].value != Undefined
                 && Fields(rest)[k] == Field(rest[i].key, Normal(rest[i].value));
        assert rest[i] == entries[i + 1];
      }
    }
  }

  lemma SortedOrdered(fields: seq<Field>)
    requires FieldKeysDiffer(fields)
    ensures Ordered(Sort(fields, FieldLess))
  {
    FieldLessStrictWeak();
    SortSorted(fields, FieldLess);
    assert Distinct(fields);
    SortDistinct(fields, FieldLess);
    SameElements(fields, Sort(fields, FieldLess));
    var sorted := Sort(fields, FieldLess);
    forall i, j | 0 <= i < j < |sorted| ensures TextLess(sorted[i].key, sorted[j].key) {
      assert sorted[i] in fields && sorted[j] in fields && sorted[i] != sorted[j];
      var a :| 0 <= a < |fields| && fields[a] == sorted[i];
      var b :| 0 <= b < |fields| && fields[b] == sorted[j];
      assert fields[a].key != fields[b].key;
      TextLessTotal(sorted[i].key, sorted[j].key);
      assert !FieldLess(sorted[j], sorted[i]);
    }
  }

  lemma FieldComesFrom(entries: seq<Entry>, f: Field)
    requires forall i :: 0 <= i < |entries| ==> Holds(Normal(entries[i].value), entries[i].value)
    requires f in Fields(entries)
    ensures ComesFrom(f, entries)
  {
    FieldsComeFrom(entries, f);
  }

  lemma EntryGoesInto(entries: seq<Entry>, i: nat, sorted: seq<Field>)
    requires i < |entries| && entries[i].value != Undefined
    requires Holds(Normal(entries[i].value), entries[i].value)
    requires forall f :: f in Fields(entries) <==> f in sorted
    ensures GoesInto(entries[i], sorted)
  {
    EntriesGoInto(entries, i);
    var k :| 0 <= k < |sorted| && sorted[k] == Field(entries[i].key, Normal(entries[i].value));
  }

  lemma ObjectHolds(entries: seq<Entry>)
    requires KeysDiffer(entries)
    requires forall i :: 0 <= i < |entries| ==> Holds(Normal(entries[i].value), entries[i].value)
    ensures Holds(Normal(Object(entries)), Object(entries))
  {
    var fields, sorted := Fields(entries), Sort(Fields(entries), FieldLess);
    FieldsDiffer(entries);
    SortedOrdered(fields);
    SameElements(fields, sorted);
    forall k | 0 <= k < |sorted| ensures ComesFrom(sorted[k], entries) {
      FieldComesFrom(entries, sorted[k]);
    }
    forall i | 0 <= i < |entries| && entries[i].value != Undefined ensures GoesInto(entries[i], sorted) {
      EntryGoesInto(entries, i, sorted);
    }
  }

  /** The normal form holds what the value does. */
  lemma {:induction false} NormalHolds(v: JsValue)
    requires Proper(v)
    ensures Holds(Normal(v), v)
    decreases v
  {
    match v
    case Array(items) =>
      forall i | 0 <= i < |items| ensures Holds(Normal(items[i]), items[i]) {
        NormalHolds(items[i]);
      }
    case Object(entries) =>
      forall i | 0 <= i < |entries| ensures Holds(Normal(entries[i].value), entries[i].value) {
        NormalHolds(entries[i].value);
      }
      ObjectHolds(entries);
    case Boxed(w) => NormalHolds(w);
    case _ =>
  }

  /** The canonical text of a value is JSON text of what it holds, keys in order at every depth. */
  lemma CanonicalReads(v: JsValue)
    requires Proper(v)
    ensures exists j :: Reads(Canonical(v), j) && Holds(j, v)
  {
    CanonicalPrintsNormal(v);
    PrintReads(Normal(v));
    NormalHolds(v);
  }
}
