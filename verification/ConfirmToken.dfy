/**
 * Confirm tokens: `<expiresAt>.<signature>`, the signature a keyed hash of canonical JSON. The hash is
 * an uninterpreted injective function `mac` of secret and text, and `number` is however the platform
 * reads a number from the text before the dot.
 */
module ConfirmToken {
  import opened Common
  import opened JsonText
  import opened CanonicalJson

  datatype Subject = Subject(tool: Text, actorId: Text, tenantRef: Option<Text>, args: JsValue)

  const PURPOSE: Text := Ascii("agent-confirm")
  const DOT: Unit := 0x2E

  function TenantOf(s: Subject): Text {
    if s.tenantRef.Some? then s.tenantRef.value else []
  }

  function SignedValue(s: Subject, expiresAt: int): JsValue {
    Array([String(PURPOSE), String(s.tool), String(s.actorId), String(TenantOf(s)), Number(expiresAt), s.args])
  }

  function SignedText(s: Subject, expiresAt: int): Text {
    Canonical(SignedValue(s, expiresAt))
  }

  /** What a token binds: everything but how the arguments were spelled. */
  ghost predicate SameSubject(s: Subject, t: Subject) {
    s.tool == t.tool && s.actorId == t.actorId && TenantOf(s) == TenantOf(t) && Same(s.args, t.args)
  }

  lemma SameSignedValues(s: Subject, t: Subject, e: int, f: int)
    ensures Same(SignedValue(s, e), SignedValue(t, f)) <==> SameSubject(s, t) && e == f
  {
    var a, b := SignedValue(s, e), SignedValue(t, f);
    assert Same(a.items[0], b.items[0]);
    assert Same(a.items[1], b.items[1]) <==> s.tool == t.tool;
    assert Same(a.items[2], b.items[2]) <==> s.actorId == t.actorId;
    assert Same(a.items[3], b.items[3]) <==> TenantOf(s) == TenantOf(t);
    assert Same(a.items[4], b.items[4]) <==> e == f;
    assert a.items[5] == s.args && b.items[5] == t.args;
  }

  /**
   * Equal signed texts force equal tool, actor, tenant (absent and empty alike), expiry and arguments,
   * and those force equal signed texts.
   */
  lemma SignedTextBinds(s: Subject, t: Subject, e: int, f: int)
    requires Proper(s.args) && Proper(t.args)
    ensures SignedText(s, e) == SignedText(t, f) <==> SameSubject(s, t) && e == f
  {
    SameSignedValues(s, t, e, f);
    CanonicalUnambiguous(SignedValue(s, e), SignedValue(t, f));
  }

  // ----- Issuing and verifying -----

  function Sign(s: Subject, expiresAt: int, secret: Text, mac: (Text, Text) -> Text): (r: Result<Text>) {
    if secret == [] then Failure(PlainError)
    else Success(Decimal(expiresAt) + [DOT] + mac(secret, SignedText(s, expiresAt)))
  }

  /** Where the first dot is, or the length of the text. */
  function IndexOfDot(t: Text): (i: nat)
    ensures i <= |t| && (i < |t| ==> t[i] == DOT) && forall j :: 0 <= j < i ==> t[j] != DOT
  {
    if t == [] || t[0] == DOT then 0 else 1 + IndexOfDot(t[1..])
  }

  function Expiry(token: Text, number: Text -> Option<int>): Option<int> {
    var i := IndexOfDot(token);
    if i == 0 || i == |token| then None
    else
      var n := number(token[..i]);
      if n.Some? && SafeInteger(n.value) && n.value > 0 then n else None
  }

  function Verify(token: Option<Text>, s: Subject, secret: Text, now: int,
                  mac: (Text, Text) -> Text, number: Text -> Option<int>)
    : (r: Result<bool>)
  {
    if token.None? then Success(false)
    else
      var e := Expiry(token.value, number);
      if e.None? || e.value < now then Success(false)
      else if secret == [] then Failure(PlainError)
      else
        Success(mac(secret, SignedText(s, e.value)) == token.value[IndexOfDot(token.value) + 1..])
  }

  ghost predicate Injective(mac: (Text, Text) -> Text) {
    forall k, m, l, n :: mac(k, m) == mac(l, n) ==> k == l && m == n
  }

  /** The platform reads back the numbers it writes. */
  ghost predicate ReadsDecimals(number: Text -> Option<int>) {
    forall n :: number(Decimal(n)) == Some(n)
  }

  lemma {:induction false} FirstDot(a: Text, b: Text)
    requires forall i :: 0 <= i < |a| ==> a[i] != DOT
    ensures IndexOfDot(a + [DOT] + b) == |a|
  {
    if a != [] {
      FirstDot(a[1..], b);
      assert (a + [DOT] + b)[1..] == a[1..] + [DOT] + b;
    }
  }

  lemma TokenParts(e: int, signature: Text, number: Text -> Option<int>)
    requires ReadsDecimals(number)
    ensures var token := Decimal(e) + [DOT] + signature;
            && IndexOfDot(token) == |Decimal(e)|
            && token[IndexOfDot(token) + 1..] == signature
            && Expiry(token, number) == if SafeInteger(e) && e > 0 then Some(e) else None
  {
    var token := Decimal(e) + [DOT] + signature;
    FirstDot(Decimal(e), signature);
    assert token[..|Decimal(e)|] == Decimal(e);
  }

  /**
   * A token issued for `s` verifies for `t` under a secret exactly when it was issued under that
   * secret, for the same subject, and has not run out.
   */
  lemma VerifiesExactly(s: Subject, e: int, secret: Text, t: Subject, other: Text, now: int,
                        mac: (Text, Text) -> Text, number: Text -> Option<int>)
    requires Injective(mac) && ReadsDecimals(number) && Proper(s.args) && Proper(t.args)
    requires secret != [] && other != [] && SafeInteger(e) && e > 0
    ensures var token := Sign(s, e, secret, mac);
            && token.Success?
            && (Verify(Some(token.value), t, other, now, mac, number) == Success(true)
                <==> secret == other && SameSubject(s, t) && now <= e)
  {
    TokenParts(e, mac(secret, SignedText(s, e)), number);
    SignedTextBinds(s, t, e, e);
  }

  /** What is signed: the purpose, the tool, who may confirm it, until when, and the arguments. */
  lemma SignedTextSays(s: Subject, e: int)
    ensures var tenant := match s.tenantRef case None => [] case Some(tenant) => tenant;
            SignedText(s, e)
            == Ascii("[")
               + (Quote(Ascii("agent-confirm")) + Ascii(",")
                  + (Quote(s.tool) + Ascii(",")
                     + (Quote(s.actorId) + Ascii(",")
                        + (Quote(tenant) + Ascii(",") + (Decimal(e) + Ascii(",") + Canonical(s.args))))))
               + Ascii("]")
  {
    Punctuation();
    var tenant := TenantOf(s);
    ArrayText(SignedValue(s, e).items);
    ItemsText(String(PURPOSE), String(s.tool), String(s.actorId), String(tenant), Number(e), s.args);
  }

  lemma Punctuation()
    ensures Ascii("[") == [91] && Ascii(",") == [44] && Ascii("]") == [93] && Ascii(".") == [46]
  {
  }

  lemma ArrayText(items: seq<JsValue>)
    ensures Canonical(Array(items)) == [91] + CanonicalItems(items) + [93]
  {
  }

  lemma ItemsText(a: JsValue, b: JsValue, c: JsValue, d: JsValue, e: JsValue, f: JsValue)
    ensures CanonicalItems([a, b, c, d, e, f])
            == Canonical(a) + [44]
               + (Canonical(b) + [44]
                  + (Canonical(c) + [44] + (Canonical(d) + [44] + (Canonical(e) + [44] + Canonical(f)))))
  {
    LastItem(f);
    ItemsFirst(e, [f]);
    ItemsFirst(d, [e, f]);
    ItemsFirst(c, [d, e, f]);
    ItemsFirst(b, [c, d, e, f]);
    ItemsFirst(a, [b, c, d, e, f]);
    assert [e] + [f] == [e, f] && [d] + [e, f] == [d, e, f] && [c] + [d, e, f] == [c, d, e, f];
    assert [b] + [c, d, e, f] == [b, c, d, e, f] && [a] + [b, c, d, e, f] == [a, b, c, d, e, f];
  }

  lemma ItemsFirst(first: JsValue, rest: seq<JsValue>)
    requires rest != []
    ensures CanonicalItems([first] + rest) == Canonical(first) + [44] + CanonicalItems(rest)
  {
    assert ([first] + rest)[1..] == rest;
    assert Canonical(first) + ([44] + CanonicalItems(rest)) == Canonical(first) + [44] + CanonicalItems(rest);
  }

  lemma LastItem(item: JsValue)
    ensures CanonicalItems([item]) == Canonical(item)
  {
    assert Canonical(item) + [] == Canonical(item);
  }

  /** A token is the expiry, a dot and the keyed hash of what is signed; it takes a secret to make one. */
  lemma SignSays(s: Subject, e: int, secret: Text, mac: (Text, Text) -> Text)
    ensures Sign(s, e, secret, mac)
            == if |secret| == 0 then Failure(PlainError)
               else Success(Decimal(e) + Ascii(".") + mac(secret, SignedText(s, e)))
  {
    Punctuation();
  }

  /** The token has an expiry that can be one and is not over, and behind a dot the hash that goes with it. */
  ghost predicate IsGood(token: Text, expiry: Text, signature: Text, s: Subject, secret: Text, now: int,
                         mac: (Text, Text) -> Text, number: Text -> Option<int>)
  {
    && token == expiry + [46] + signature && |expiry| >= 1 && 46 !in expiry
    && match number(expiry)
       case None => false
       case Some(e) => 1 <= e <= 9007199254740991 && now <= e && signature == mac(secret, SignedText(s, e))
  }

  lemma OneSplit(token: Text, expiry: Text, signature: Text)
    requires token == expiry + [46] + signature && 46 !in expiry
    ensures IndexOfDot(token) == |expiry|
    ensures token[..IndexOfDot(token)] == expiry && token[IndexOfDot(token) + 1..] == signature
  {
    FirstDot(expiry, signature);
  }

  /** Any text whatever verifies exactly if it is such a token; without a secret none does, and some throw. */
  lemma VerifiesIff(token: Text, s: Subject, secret: Text, now: int, mac: (Text, Text) -> Text,
                    number: Text -> Option<int>)
    ensures var r := Verify(Some(token), s, secret, now, mac, number);
            && (r == Success(true) <==>
                  |secret| > 0
                  && exists expiry, signature :: IsGood(token, expiry, signature, s, secret, now, mac, number))
            && (r.Failure? ==> |secret| == 0 && r.error == PlainError)
            && (|secret| == 0 ==>
                  (r.Failure? <==> exists expiry, signature :: IsDated(token, expiry, signature, now, number)))
    ensures Verify(None, s, secret, now, mac, number) == Success(false)
  {
    var i := IndexOfDot(token);
    if i < |token| {
      assert token == token[..i] + [46] + token[i + 1..];
    }
    forall expiry, signature | token == expiry + [46] + signature && 46 !in expiry
      ensures expiry == token[..i] && signature == token[i + 1..]
    {
      OneSplit(token, expiry, signature);
    }
    if Expiry(token, number).Some? && Expiry(token, number).value >= now {
      assert IsDated(token, token[..i], token[i + 1..], now, number);
      if token[i + 1..] == mac(secret, SignedText(s, Expiry(token, number).value)) {
        assert IsGood(token, token[..i], token[i + 1..], s, secret, now, mac, number);
      }
    }
  }

  /** The token has an expiry that can be one and is not over, whatever stands behind the dot. */
  ghost predicate IsDated(token: Text, expiry: Text, signature: Text, now: int, number: Text -> Option<int>) {
    && token == expiry + [46] + signature && |expiry| >= 1 && 46 !in expiry
    && match number(expiry)
       case None => false
       case Some(e) => 1 <= e <= 9007199254740991 && now <= e
  }

  // ----- Marking tokens as spent -----

  /** A mark is kept up to its expiry, and as it was. */
  lemma PurgedSays(marks: map<Text, int>, now: int, hash: Text)
    ensures hash in Purged(marks, now) <==> hash in marks && now <= marks[hash]
    ensures hash in Purged(marks, now) ==> Purged(marks, now)[hash] == marks[hash]
  {
  }

  /** Marks that have run out are forgotten at the next claim. */
  function Purged(marks: map<Text, int>, now: int): map<Text, int> {
    map t | t in marks && marks[t] >= now :: marks[t]
  }

  /** The single-process mark of spent tokens, by hash; marks that have run out go at the next claim. */
  class Store {
    var claims: map<Text, int>

    constructor ()
      ensures claims == map[]
    {
      claims := map[];
    }

    method Claim(hash: Text, expiresAt: int, now: int) returns (claimed: bool)
      modifies this
      ensures claimed <==> hash !in Purged(old(claims), now)
      ensures claims == if claimed then Purged(old(claims), now)[hash := expiresAt] else Purged(old(claims), now)
    {
      var purged := PurgeExpired(now);
      if hash in claims {
        return false;
      }
      claims := claims[hash := expiresAt];
      claimed := true;
    }

    method Release(hash: Text)
      modifies this
      ensures claims == old(claims) - {hash}
    {
      claims := claims - {hash};
    }

    method PurgeExpired(now: int) returns (purged: nat)
      modifies this
      ensures claims == Purged(old(claims), now)
      ensures purged == |old(claims)| - |claims|
    {
      purged := 0;
      ghost var before := claims;
      var todo := claims.Keys;
      while todo != {}
        invariant todo <= claims.Keys <= before.Keys
        invariant forall h :: h in claims ==> claims[h] == before[h]
        invariant forall h :: h in before ==> (h in claims <==> h in todo || before[h] >= now)
        invariant purged + |claims| == |before|
        decreases |todo|
      {
        var h :| h in todo;
        if claims[h] < now {
          claims := claims - {h};
          purged := purged + 1;
        }
        todo := todo - {h};
      }
    }
  }
}
