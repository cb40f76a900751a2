/**
 * JSON text as `JSON.stringify` writes it, for values in normal form (sections 4, 5 and 7 of RFC 8259,
 * numbers as integers): no two values share a text, nor one text a prefix of which is another's.
 */
module JsonText {
  import opened Common

  /** A JSON value; an object's fields come in the order they are printed. */
  datatype Json =
    | JNull
    | JBool(b: bool)
    | JNum(n: int)
    | JStr(s: Text)
    | JArr(items: seq<Json>)
    | JObj(fields: seq<Field>)

  datatype Field = Field(key: Text, value: Json)

  const NULL: Text := Ascii("null")
  const TRUE: Text := Ascii("true")
  const FALSE: Text := Ascii("false")
  const MINUS: Unit := 0x2D
  const COMMA: Unit := 0x2C
  const COLON: Unit := 0x3A
  const QUOTE: Unit := 0x22
  const BACKSLASH: Unit := 0x5C
  const LBRACKET: Unit := 0x5B
  const RBRACKET: Unit := 0x5D
  const LBRACE: Unit := 0x7B
  const RBRACE: Unit := 0x7D

  // ----- Numbers -----

  predicate IsDigit(c: Unit) {
    0x30 <= c <= 0x39
  }

  function Digits(n: nat): (t: Text)
    ensures t != [] && forall i :: 0 <= i < |t| ==> IsDigit(t[i])
  {
    if n < 10 then [0x30 + n] else Digits(n / 10) + [0x30 + n % 10]
  }

  function Decimal(n: int): (t: Text)
    ensures t != [] && (t[0] == MINUS || IsDigit(t[0]))
  {
    if n < 0 then [MINUS] + Digits(-n) else Digits(n)
  }

  function ValueOf(t: Text): int {
    if t == [] then 0
    else
      var last: int := t[|t| - 1];
      10 * ValueOf(t[..|t| - 1]) + last - 0x30
  }

  lemma {:induction false} ValueOfDigits(n: nat)
    ensures ValueOf(Digits(n)) == n
  {
    if n < 10 {
      assert Digits(n)[..0] == [];
    } else {
      ValueOfDigits(n / 10);
      assert Digits(n)[..|Digits(n)| - 1] == Digits(n / 10);
    }
  }

  /** What may follow a value: nothing, or something no number goes on with. */
  predicate Ends(t: Text) {
    t == [] || !IsDigit(t[0])
  }

  /** How many digits a text starts with. */
  function Run(t: Text): nat {
    if t != [] && IsDigit(t[0]) then 1 + Run(t[1..]) else 0
  }

  lemma {:induction false} RunOfDigits(a: Text, x: Text)
    requires (forall i :: 0 <= i < |a| ==> IsDigit(a[i])) && Ends(x)
    ensures Run(a + x) == |a|
  {
    if a == [] {
      assert a + x == x;
    } else {
      RunOfDigits(a[1..], x);
      assert (a + x)[1..] == a[1..] + x;
    }
  }

  /** The digits a text starts with are told from what follows them. */
  lemma DigitRun(a: Text, b: Text, x: Text, y: Text)
    requires forall i :: 0 <= i < |a| ==> IsDigit(a[i])
    requires forall i :: 0 <= i < |b| ==> IsDigit(b[i])
    requires a + x == b + y && Ends(x) && Ends(y)
    ensures a == b && x == y
  {
    RunOfDigits(a, x);
    RunOfDigits(b, y);
    Split(a, b, x, y);
  }

  lemma Split(a: Text, b: Text, x: Text, y: Text)
    requires a + x == b + y && |a| == |b|
    ensures a == b && x == y
  {
    assert (a + x)[..|a|] == a && (b + y)[..|b|] == b;
    assert (a + x)[|a|..] == x && (b + y)[|b|..] == y;
  }

  lemma DigitsUnambiguous(m: nat, n: nat, x: Text, y: Text)
    requires Digits(m) + x == Digits(n) + y && Ends(x) && Ends(y)
    ensures m == n && x == y
  {
    DigitRun(Digits(m), Digits(n), x, y);
    ValueOfDigits(m);
    ValueOfDigits(n);
  }

  lemma SameSign(m: int, n: int, x: Text, y: Text)
    requires Decimal(m) + x == Decimal(n) + y
    ensures m < 0 <==> n < 0
  {
    assert (Decimal(m) + x)[0] == Decimal(m)[0] && (Decimal(n) + y)[0] == Decimal(n)[0];
  }

  lemma Negative(n: int, x: Text)
    requires n < 0
    ensures Decimal(n) + x == [MINUS] + (Digits(-n) + x)
  {
  }

  lemma NegativesUnambiguous(m: int, n: int, x: Text, y: Text)
    requires m < 0 && n < 0 && Decimal(m) + x == Decimal(n) + y && Ends(x) && Ends(y)
    ensures m == n && x == y
  {
    Negative(m, x);
    Negative(n, y);
    Split([MINUS], [MINUS], Digits(-m) + x, Digits(-n) + y);
    DigitsUnambiguous(-m, -n, x, y);
  }

  lemma DecimalUnambiguous(m: int, n: int, x: Text, y: Text)
    requires Decimal(m) + x == Decimal(n) + y && Ends(x) && Ends(y)
    ensures m == n && x == y
  {
    SameSign(m, n, x, y);
    if m < 0 {
      NegativesUnambiguous(m, n, x, y);
    } else {
      DigitsUnambiguous(m, n, x, y);
    }
  }

  // ----- Strings -----

  predicate IsHigh(c: Unit) {
    0xD800 <= c <= 0xDBFF
  }

  predicate IsLow(c: Unit) {
    0xDC00 <= c <= 0xDFFF
  }

  function HexDigit(n: int): Unit
    requires 0 <= n < 16
  {
    if n < 10 then 0x30 + n else 0x61 + (n - 10)
  }

  function Hex4(c: Unit): (t: Text)
    ensures |t| == 4
  {
    [HexDigit(c / 0x1000), HexDigit(c / 0x100 % 0x10), HexDigit(c / 0x10 % 0x10), HexDigit(c % 0x10)]
  }

  /** The letter of a two-unit escape, if the unit has one. */
  function Short(c: Unit): Option<Unit> {
    if c == QUOTE then Some(QUOTE)
    else if c == BACKSLASH then Some(BACKSLASH)
    else if c == 0x08 then Some(0x62)
    else if c == 0x09 then Some(0x74)
    else if c == 0x0A then Some(0x6E)
    else if c == 0x0C then Some(0x66)
    else if c == 0x0D then Some(0x72)
    else None
  }

  /** One unit that is not half of a pair: control units and lone surrogates are escaped. */
  function Escape(c: Unit): (t: Text)
    ensures t != [] && t[0] != QUOTE
  {
    if Short(c).Some? then [BACKSLASH, Short(c).value]
    else if c < 0x20 || IsHigh(c) || IsLow(c) then [BACKSLASH, 0x75] + Hex4(c)
    else [c]
  }

  predicate IsPair(s: Text) {
    |s| > 1 && IsHigh(s[0]) && IsLow(s[1])
  }

  /** What is written next: a pair of surrogates as it is, or one unit. */
  function Head(s: Text): (h: Text)
    requires s != []
    ensures 0 < |h| <= |s| && h == s[..|h|]
  {
    if IsPair(s) then [s[0], s[1]] else [s[0]]
  }

  function Written(s: Text): (t: Text)
    requires s != []
    ensures t != [] && t[0] != QUOTE
  {
    if IsPair(s) then [s[0], s[1]] else Escape(s[0])
  }

  function Body(s: Text): Text {
    if s == [] then [] else Written(s) + Body(s[|Head(s)|..])
  }

  function Quote(s: Text): Text {
    [QUOTE] + Body(s) + [QUOTE]
  }

  lemma Hex4Injective(c: Unit, d: Unit)
    requires Hex4(c) == Hex4(d)
    ensures c == d
  {
    assert Hex4(c)[0] == Hex4(d)[0] && Hex4(c)[1] == Hex4(d)[1];
    assert Hex4(c)[2] == Hex4(d)[2] && Hex4(c)[3] == Hex4(d)[3];
    HexParts(c);
    HexParts(d);
  }

  lemma HexParts(c: Unit)
    ensures c == c / 0x1000 * 0x1000 + c / 0x100 % 0x10 * 0x100 + c / 0x10 % 0x10 * 0x10 + c % 0x10
    ensures 0 <= c / 0x1000 < 16
  {
    assert c / 0x100 == c / 0x1000 * 0x10 + c / 0x100 % 0x10;
    assert c / 0x10 == c / 0x100 * 0x10 + c / 0x10 % 0x10;
  }

  lemma EscapeUnambiguous(c: Unit, d: Unit, x: Text, y: Text)
    requires Escape(c) + x == Escape(d) + y
    ensures c == d && x == y
  {
    var a, b := Escape(c) + x, Escape(d) + y;
    assert a[0] == Escape(c)[0] && b[0] == Escape(d)[0];
    if a[0] == BACKSLASH {
      assert a[1] == Escape(c)[1] && b[1] == Escape(d)[1];
      if Short(c).None? {
        assert a[2..6] == Hex4(c) && b[2..6] == Hex4(d);
        Hex4Injective(c, d);
      }
    }
    Split(Escape(c), Escape(d), x, y);
  }

  /** What follows the head of a body. */
  function Rest(s: Text, x: Text): Text
    requires s != []
  {
    Body(s[|Head(s)|..]) + [QUOTE] + x
  }

  lemma BodyHead(s: Text, x: Text)
    requires s != []
    ensures Body(s) + [QUOTE] + x == Written(s) + Rest(s, x)
  {
  }

  lemma HeadUnambiguous(s: Text, t: Text, x: Text, y: Text)
    requires s != [] && t != [] && Written(s) + x == Written(t) + y
    ensures Head(s) == Head(t) && x == y
  {
    assert (Written(s) + x)[0] == Written(s)[0] && (Written(t) + y)[0] == Written(t)[0];
    if IsPair(s) {
      Split(Written(s), Written(t), x, y);
    } else {
      EscapeUnambiguous(s[0], t[0], x, y);
    }
  }

  /** Only an empty body starts with the closing quote. */
  lemma BodyStart(s: Text, x: Text)
    ensures var a := Body(s) + [QUOTE] + x; a != [] && (a[0] == QUOTE <==> s == [])
  {
    var a := Body(s) + [QUOTE] + x;
    if s == [] {
      assert a == [QUOTE] + x;
    } else {
      assert a[0] == Body(s)[0];
    }
  }

  lemma SameHead(s: Text, t: Text, x: Text, y: Text)
    requires s != [] && t != [] && Body(s) + [QUOTE] + x == Body(t) + [QUOTE] + y
    ensures Head(s) == Head(t) && Rest(s, x) == Rest(t, y)
  {
    BodyHead(s, x);
    BodyHead(t, y);
    HeadUnambiguous(s, t, Rest(s, x), Rest(t, y));
  }

  lemma EmptyBody(t: Text, x: Text, y: Text)
    requires Body([]) + [QUOTE] + x == Body(t) + [QUOTE] + y
    ensures t == [] && x == y
  {
    BodyStart([], x);
    BodyStart(t, y);
    assert Body(t) + [QUOTE] + y == [QUOTE] + y;
    assert Body([]) + [QUOTE] + x == [QUOTE] + x;
    Split([QUOTE], [QUOTE], x, y);
  }

  lemma {:induction false} BodyUnambiguous(s: Text, t: Text, x: Text, y: Text)
    requires Body(s) + [QUOTE] + x == Body(t) + [QUOTE] + y
    ensures s == t && x == y
    decreases |s|
  {
    if s == [] {
      EmptyBody(t, x, y);
    } else if t == [] {
      EmptyBody(s, y, x);
    } else {
      SameHead(s, t, x, y);
      var n := |Head(s)|;
      BodyUnambiguous(s[n..], t[n..], x, y);
    }
  }

  lemma QuoteOpens(s: Text, x: Text)
    ensures Quote(s) + x == [QUOTE] + (Body(s) + [QUOTE] + x)
  {
  }

  lemma QuoteUnambiguous(s: Text, t: Text, x: Text, y: Text)
    requires Quote(s) + x == Quote(t) + y
    ensures s == t && x == y
  {
    QuoteOpens(s, x);
    QuoteOpens(t, y);
    Split([QUOTE], [QUOTE], Body(s) + [QUOTE] + x, Body(t) + [QUOTE] + y);
    BodyUnambiguous(s, t, x, y);
  }

  // ----- Values -----

  function Print(j: Json): Text {
    match j
    case JNull => NULL
    case JBool(b) => if b then TRUE else FALSE
    case JNum(n) => Decimal(n)
    case JStr(t) => Quote(t)
    case JArr(items) => [LBRACKET] + PrintItems(items) + [RBRACKET]
    case JObj(fields) => [LBRACE] + PrintFields(fields) + [RBRACE]
  }

  function PrintItems(items: seq<Json>): Text {
    if items == [] then []
    else Print(items[0]) + (if |items| == 1 then [] else [COMMA] + PrintItems(items[1..]))
  }

  function PrintField(f: Field): Text {
    Quote(f.key) + [COLON] + Print(f.value)
  }

  function PrintFields(fields: seq<Field>): Text {
    if fields == [] then []
    else PrintField(fields[0]) + (if |fields| == 1 then [] else [COMMA] + PrintFields(fields[1..]))
  }

  /** What may follow a value inside a larger text, or after the whole. */
  predicate Delimits(t: Text) {
    t == [] || t[0] in {COMMA, RBRACKET, RBRACE}
  }

  /** The kind of value a text starts with is told from its first unit. */
  predicate StartsLike(j: Json, c: Unit) {
    match j
    case JNull => c == 0x6E
    case JBool(b) => c == if b then 0x74 else 0x66
    case JNum(_) => c == MINUS || IsDigit(c)
    case JStr(_) => c == QUOTE
    case JArr(_) => c == LBRACKET
    case JObj(_) => c == LBRACE
  }

  lemma PrintStarts(j: Json, x: Text)
    ensures Print(j) != [] && StartsLike(j, Print(j)[0])
    ensures (Print(j) + x)[0] == Print(j)[0]
  {
  }

  /** What follows the first item of a list whose text goes on with `x`. */
  function AfterItem(items: seq<Json>, x: Text): (t: Text)
    requires items != []
    ensures Delimits(t) && t != [] && (t[0] == RBRACKET <==> |items| == 1)
  {
    if |items| == 1 then [RBRACKET] + x else [COMMA] + (PrintItems(items[1..]) + [RBRACKET] + x)
  }

  lemma FirstItem(items: seq<Json>, x: Text)
    requires items != []
    ensures PrintItems(items) + [RBRACKET] + x == Print(items[0]) + AfterItem(items, x)
  {
  }

  lemma ItemsOpen(items: seq<Json>, x: Text)
    ensures var t := PrintItems(items) + [RBRACKET] + x;
            t != [] && (t[0] == RBRACKET <==> items == [])
  {
    if items == [] {
      assert PrintItems(items) + [RBRACKET] + x == [RBRACKET] + x;
    } else {
      FirstItem(items, x);
      PrintStarts(items[0], AfterItem(items, x));
    }
  }

  /** What follows the first field of an object whose text goes on with `x`. */
  function AfterField(fields: seq<Field>, x: Text): (t: Text)
    requires fields != []
    ensures Delimits(t) && t != [] && (t[0] == RBRACE <==> |fields| == 1)
  {
    if |fields| == 1 then [RBRACE] + x else [COMMA] + (PrintFields(fields[1..]) + [RBRACE] + x)
  }

  lemma FirstField(fields: seq<Field>, x: Text)
    requires fields != []
    ensures PrintFields(fields) + [RBRACE] + x
            == Quote(fields[0].key) + ([COLON] + (Print(fields[0].value) + AfterField(fields, x)))
  {
    var rest := if |fields| == 1 then [] else [COMMA] + PrintFields(fields[1..]);
    assert AfterField(fields, x) == rest + [RBRACE] + x;
    Regroup(Quote(fields[0].key), [COLON], Print(fields[0].value), rest, [RBRACE], x);
  }

  lemma Regroup(a: Text, b: Text, c: Text, d: Text, e: Text, f: Text)
    ensures a + b + c + d + e + f == a + (b + (c + (d + e + f)))
  {
  }

  lemma FieldsOpen(fields: seq<Field>, x: Text)
    ensures var t := PrintFields(fields) + [RBRACE] + x;
            t != [] && (t[0] == RBRACE <==> fields == [])
  {
    if fields == [] {
      assert PrintFields(fields) + [RBRACE] + x == [RBRACE] + x;
    } else {
      FirstField(fields, x);
    }
  }

  lemma EmptyItems(items: seq<Json>, x: Text, y: Text)
    requires PrintItems([]) + [RBRACKET] + x == PrintItems(items) + [RBRACKET] + y
    ensures items == [] && x == y
  {
    ItemsOpen([], x);
    ItemsOpen(items, y);
    assert PrintItems([]) + [RBRACKET] + x == [RBRACKET] + x;
    assert PrintItems(items) + [RBRACKET] + y == [RBRACKET] + y;
    Split([RBRACKET], [RBRACKET], x, y);
  }

  lemma EmptyFields(fields: seq<Field>, x: Text, y: Text)
    requires PrintFields([]) + [RBRACE] + x == PrintFields(fields) + [RBRACE] + y
    ensures fields == [] && x == y
  {
    FieldsOpen([], x);
    FieldsOpen(fields, y);
    assert PrintFields([]) + [RBRACE] + x == [RBRACE] + x;
    assert PrintFields(fields) + [RBRACE] + y == [RBRACE] + y;
    Split([RBRACE], [RBRACE], x, y);
  }

  lemma {:induction false} ItemsUnambiguous(a: seq<Json>, b: seq<Json>, x: Text, y: Text)
    requires PrintItems(a) + [RBRACKET] + x == PrintItems(b) + [RBRACKET] + y
    ensures a == b && x == y
    decreases a
  {
    if a == [] {
      EmptyItems(b, x, y);
    } else if b == [] {
      EmptyItems(a, y, x);
    } else {
      FirstItem(a, x);
      FirstItem(b, y);
      PrintUnambiguous(a[0], b[0], AfterItem(a, x), AfterItem(b, y));
      if |a| == 1 {
        Split([RBRACKET], [RBRACKET], x, y);
      } else {
        Split([COMMA], [COMMA], PrintItems(a[1..]) + [RBRACKET] + x, PrintItems(b[1..]) + [RBRACKET] + y);
        ItemsUnambiguous(a[1..], b[1..], x, y);
      }
      assert a == [a[0]] + a[1..] && b == [b[0]] + b[1..];
    }
  }

  lemma {:induction false} FieldsUnambiguous(a: seq<Field>, b: seq<Field>, x: Text, y: Text)
    requires PrintFields(a) + [RBRACE] + x == PrintFields(b) + [RBRACE] + y
    ensures a == b && x == y
    decreases a
  {
    if a == [] {
      EmptyFields(b, x, y);
    } else if b == [] {
      EmptyFields(a, y, x);
    } else {
      var ra, rb := AfterField(a, x), AfterField(b, y);
      FirstField(a, x);
      FirstField(b, y);
      QuoteUnambiguous(a[0].key, b[0].key, [COLON] + (Print(a[0].value) + ra), [COLON] + (Print(b[0].value) + rb));
      Split([COLON], [COLON], Print(a[0].value) + ra, Print(b[0].value) + rb);
      PrintUnambiguous(a[0].value, b[0].value, ra, rb);
      if |a| == 1 {
        Split([RBRACE], [RBRACE], x, y);
      } else {
        Split([COMMA], [COMMA], PrintFields(a[1..]) + [RBRACE] + x, PrintFields(b[1..]) + [RBRACE] + y);
        FieldsUnambiguous(a[1..], b[1..], x, y);
      }
      assert a == [a[0]] + a[1..] && b == [b[0]] + b[1..];
    }
  }

  lemma ArrayOpens(items: seq<Json>, x: Text)
    ensures Print(JArr(items)) + x == [LBRACKET] + (PrintItems(items) + [RBRACKET] + x)
  {
  }

  lemma ObjectOpens(fields: seq<Field>, x: Text)
    ensures Print(JObj(fields)) + x == [LBRACE] + (PrintFields(fields) + [RBRACE] + x)
  {
  }

  lemma ArraysOpen(a: seq<Json>, b: seq<Json>, x: Text, y: Text)
    requires Print(JArr(a)) + x == Print(JArr(b)) + y
    ensures PrintItems(a) + [RBRACKET] + x == PrintItems(b) + [RBRACKET] + y
  {
    ArrayOpens(a, x);
    ArrayOpens(b, y);
    Split([LBRACKET], [LBRACKET], PrintItems(a) + [RBRACKET] + x, PrintItems(b) + [RBRACKET] + y);
  }

  lemma ObjectsOpen(a: seq<Field>, b: seq<Field>, x: Text, y: Text)
    requires Print(JObj(a)) + x == Print(JObj(b)) + y
    ensures PrintFields(a) + [RBRACE] + x == PrintFields(b) + [RBRACE] + y
  {
    ObjectOpens(a, x);
    ObjectOpens(b, y);
    Split([LBRACE], [LBRACE], PrintFields(a) + [RBRACE] + x, PrintFields(b) + [RBRACE] + y);
  }

  lemma SimpleUnambiguous(j: Json, k: Json, x: Text, y: Text)
    requires j.JNull? || j.JBool? || j.JNum? || j.JStr?
    requires Print(j) + x == Print(k) + y && Delimits(x) && Delimits(y)
    ensures j == k && x == y
  {
    PrintStarts(k, y);
    match j
    case JNull => Split(NULL, NULL, x, y);
    case JBool(b) => Split(Print(j), Print(j), x, y);
    case JNum(n) => DecimalUnambiguous(n, k.n, x, y);
    case JStr(t) => QuoteUnambiguous(t, k.s, x, y);
  }

  /** A value's text, with something that may follow it, is that of no other value. */
  lemma {:induction false} PrintUnambiguous(j: Json, k: Json, x: Text, y: Text)
    requires Print(j) + x == Print(k) + y && Delimits(x) && Delimits(y)
    ensures j == k && x == y
    decreases j
  {
    PrintStarts(k, y);
    match j
    case JArr(items) =>
      ArraysOpen(items, k.items, x, y);
      ItemsUnambiguous(items, k.items, x, y);
    case JObj(fields) =>
      ObjectsOpen(fields, k.fields, x, y);
      FieldsUnambiguous(fields, k.fields, x, y);
    case _ => SimpleUnambiguous(j, k, x, y);
  }

  /** Two values with one text are one value. */
  lemma PrintInjective(j: Json, k: Json)
    requires Print(j) == Print(k)
    ensures j == k
  {
    assert Print(j) + [] == Print(j) && Print(k) + [] == Print(k);
    PrintUnambiguous(j, k, [], []);
  }
}
