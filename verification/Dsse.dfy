/** DSSE envelopes: the pre-authentication encoding, signing and verification over
    abstract JSON, base64 and signature primitives. Byte strings are strings. */
module Dsse {
  import opened Text

  // ----- pre-authentication encoding -----

  function Digit(d: nat): char
    requires d < 10
  {
    "0123456789"[d]
  }

  function Decimal(n: nat): string {
    if n < 10 then [Digit(n)] else Decimal(n / 10) + [Digit(n % 10)]
  }

  function Pae(payloadType: string, payload: string): string {
    "DSSEv1 " + (Decimal(|payloadType|) + " " + (payloadType + " " + (Decimal(|payload|) + " " + payload)))
  }

  method DssePae(payloadType: string, payload: string) returns (out: string)
    ensures out == Pae(payloadType, payload)
  {
    out := "DSSEv1 ";
    out := out + Decimal(|payloadType|);
    out := out + [' '];
    out := out + payloadType;
    out := out + [' '];
    out := out + Decimal(|payload|);
    out := out + [' '];
    out := out + payload;
    PaeIsFlat(payloadType, Decimal(|payloadType|), Decimal(|payload|), payload);
  }

  lemma {:induction false} PaeIsFlat(payloadType: string, n: string, m: string, payload: string)
    ensures "DSSEv1 " + n + [' '] + payloadType + [' '] + m + [' '] + payload ==
            "DSSEv1 " + (n + " " + (payloadType + " " + (m + " " + payload)))
  {
  }

  // ----- the decoder -----

  function DigitValue(c: char): nat { if '0' <= c <= '9' then (c as int - '0' as int) as nat else 0 }

  function Number(s: string): nat {
    if s == "" then 0 else Number(s[..|s| - 1]) * 10 + DigitValue(s[|s| - 1])
  }

  /** The number in front of the first space, and what follows that space. */
  function ReadNumber(s: string): Option<(nat, string)> {
    var i := IndexOf(s, ' ');
    if i == |s| then None else Some((Number(s[..i]), s[i + 1..]))
  }

  /** Undoes the encoding: type and payload, each taken by the length in front of it. */
  function DecodePae(s: string): Option<(string, string)> {
    if !StartsWith(s, "DSSEv1 ") then None
    else match ReadNumber(s[7..])
      case None => None
      case Some((n, rest)) =>
        if |rest| <= n || rest[n] != ' ' then None
        else match ReadNumber(rest[n + 1..])
          case None => None
          case Some((m, payload)) => if |payload| == m then Some((rest[..n], payload)) else None
  }

  lemma {:induction false} DigitRoundTrip(d: nat)
    requires d < 10
    ensures DigitValue(Digit(d)) == d && Digit(d) != ' '
  {
    assert d == 0 || d == 1 || d == 2 || d == 3 || d == 4 || d == 5 || d == 6 || d == 7 || d == 8 || d == 9;
  }

  lemma {:induction false} DecimalRoundTrip(n: nat)
    ensures Number(Decimal(n)) == n && ' ' !in Decimal(n)
  {
    if n < 10 {
      DigitRoundTrip(n);
      assert Decimal(n)[..0] == "";
      assert Number("") == 0;
    } else {
      DecimalRoundTrip(n / 10);
      DigitRoundTrip(n % 10);
      var d := Decimal(n);
      assert d[..|d| - 1] == Decimal(n / 10);
    }
  }

  predicate IsDigit(c: char) { '0' <= c <= '9' }

  /** Digits, and no zero in front of others. */
  predicate IsDecimal(s: string) {
    s != "" && (forall i :: 0 <= i < |s| ==> IsDigit(s[i])) && (|s| > 1 ==> s[0] != '0')
  }

  lemma {:induction false} DigitIs(d: nat)
    requires d < 10
    ensures IsDigit(Digit(d)) && (Digit(d) == '0' <==> d == 0)
  {
    assert d == 0 || d == 1 || d == 2 || d == 3 || d == 4 || d == 5 || d == 6 || d == 7 || d == 8 || d == 9;
  }

  /** Lengths are written without leading zeros, and in one way only. */
  lemma {:induction false} DecimalIsShortest(n: nat)
    ensures IsDecimal(Decimal(n)) && (Decimal(n)[0] == '0' <==> n == 0)
    ensures forall s :: IsDecimal(s) && Number(s) == n ==> s == Decimal(n)
  {
    DecimalHasNoLeadingZero(n);
    forall s | IsDecimal(s) && Number(s) == n ensures s == Decimal(n) {
      DecimalOfNumber(s);
    }
  }

  lemma {:induction false} DecimalHasNoLeadingZero(n: nat)
    ensures IsDecimal(Decimal(n)) && (Decimal(n)[0] == '0' <==> n == 0)
  {
    if n < 10 {
      DigitIs(n);
    } else {
      DecimalHasNoLeadingZero(n / 10);
      DigitIs(n % 10);
    }
  }

  lemma {:induction false} DecimalOfNumber(s: string)
    requires IsDecimal(s)
    ensures Decimal(Number(s)) == s && (Number(s) == 0 <==> s[0] == '0')
  {
    var init, d := s[..|s| - 1], DigitValue(s[|s| - 1]);
    assert s == init + [s[|s| - 1]];
    DigitOfValue(s[|s| - 1]);
    if |s| > 1 {
      DecimalOfNumber(init);
      assert Number(s) == Number(init) * 10 + d && Number(s) / 10 == Number(init) && Number(s) % 10 == d;
    } else {
      assert init == "" && Number("") == 0 && Number(s) == d;
    }
  }

  lemma {:induction false} DigitOfValue(c: char)
    requires IsDigit(c)
    ensures DigitValue(c) < 10 && Digit(DigitValue(c)) == c && (DigitValue(c) == 0 <==> c == '0')
  {
    var d := DigitValue(c);
    assert d == 0 || d == 1 || d == 2 || d == 3 || d == 4 || d == 5 || d == 6 || d == 7 || d == 8 || d == 9;
  }

  lemma {:induction false} ReadDecimal(n: nat, rest: string)
    ensures ReadNumber(Decimal(n) + " " + rest) == Some((n, rest))
  {
    var d := Decimal(n);
    var s := d + " " + rest;
    DecimalRoundTrip(n);
    assert forall k :: 0 <= k < |d| ==> s[k] == d[k];
    IndexOfUnique(s, ' ', |d|);
    assert s[..|d|] == d && s[|d| + 1..] == rest;
  }

  /** The encoding loses nothing. */
  lemma {:induction false} PaeRoundTrip(payloadType: string, payload: string)
    ensures DecodePae(Pae(payloadType, payload)) == Some((payloadType, payload))
  {
    var s := Pae(payloadType, payload);
    var tail := Decimal(|payload|) + " " + payload;
    var rest := payloadType + " " + tail;
    assert s[..7] == "DSSEv1 ";
    assert s[7..] == Decimal(|payloadType|) + " " + rest;
    ReadDecimal(|payloadType|, rest);
    assert rest[..|payloadType|] == payloadType && rest[|payloadType|] == ' ' && rest[|payloadType| + 1..] == tail;
    ReadDecimal(|payload|, payload);
  }

  /** What is signed for one type and payload is signed for no other. */
  lemma {:induction false} PaeInjective(t1: string, p1: string, t2: string, p2: string)
    ensures Pae(t1, p1) == Pae(t2, p2) <==> t1 == t2 && p1 == p2
  {
    PaeRoundTrip(t1, p1);
    PaeRoundTrip(t2, p2);
  }

  // ----- envelopes -----

  datatype Signature = Signature(sig: string, keyid: Option<string>)

  datatype Envelope = Envelope(payloadType: string, payload: string, signatures: seq<Signature>)

  datatype DsseError = BadPayload | BadSignature | BadPublicKey | BadPrivateKey | VerifyFailed

  /** Library primitives: JSON, base64, key and signature parsing, ECDSA. */
  datatype Tools = Tools(
    toJson: Envelope -> string,
    fromJson: string -> Option<Envelope>,
    encode64: string -> string,
    decode64: string -> Option<string>,
    parseKey: string -> Option<string>,
    parseSignature: string -> Option<string>,
    signKeyed: (string, string) -> Option<string>,
    accepts: (string, string, string) -> bool)

  /** One entry decodes, parses and covers the message under the key. */
  predicate EntryVerifies(t: Tools, key: string, message: string, entry: Signature) {
    match t.decode64(entry.sig)
    case None => false
    case Some(bytes) =>
      match t.parseSignature(bytes)
      case None => false
      case Some(signature) => t.accepts(key, message, signature)
  }

  predicate SomeVerifies(t: Tools, key: string, message: string, entries: seq<Signature>) {
    exists i :: 0 <= i < |entries| && EntryVerifies(t, key, message, entries[i])
  }

  function Verified(t: Tools, publicKey: string, envelope: string): Result<string, DsseError> {
    match t.fromJson(envelope)
    case None => Err(BadPayload)
    case Some(e) =>
      match t.decode64(e.payload)
      case None => Err(BadSignature)
      case Some(payload) =>
        match t.parseKey(publicKey)
        case None => Err(BadPublicKey)
        case Some(key) =>
          if SomeVerifies(t, key, Pae(e.payloadType, payload), e.signatures) then Ok(payload) else Err(VerifyFailed)
  }

  method SignDsse(t: Tools, privateKey: string, payloadType: string, payload: string)
    returns (r: Result<string, DsseError>)
    ensures r == Signed(t, privateKey, payloadType, payload)
  {
    var pae := DssePae(payloadType, payload);
    var sig := t.signKeyed(privateKey, pae);
    if sig.None? {
      return Err(BadPrivateKey);
    }
    var envelope := Envelope(payloadType, t.encode64(payload), [Signature(sig.value, None)]);
    r := Ok(t.toJson(envelope));
  }

  function Signed(t: Tools, privateKey: string, payloadType: string, payload: string): Result<string, DsseError> {
    match t.signKeyed(privateKey, Pae(payloadType, payload))
    case None => Err(BadPrivateKey)
    case Some(sig) => Ok(t.toJson(Envelope(payloadType, t.encode64(payload), [Signature(sig, None)])))
  }

  method VerifyDsse(t: Tools, publicKey: string, envelope: string) returns (r: Result<string, DsseError>)
    ensures r == Verified(t, publicKey, envelope)
  {
    var parsed := t.fromJson(envelope);
    if parsed.None? {
      return Err(BadPayload);
    }
    var e := parsed.value;
    var payload := t.decode64(e.payload);
    if payload.None? {
      return Err(BadSignature);
    }
    var pae := DssePae(e.payloadType, payload.value);
    var key := t.parseKey(publicKey);
    if key.None? {
      return Err(BadPublicKey);
    }
    var i := 0;
    while i < |e.signatures|
      invariant i <= |e.signatures|
      invariant forall j :: 0 <= j < i ==> !EntryVerifies(t, key.value, pae, e.signatures[j])
    {
      var bytes := t.decode64(e.signatures[i].sig);
      if bytes.Some? {
        var signature := t.parseSignature(bytes.value);
        if signature.Some? && t.accepts(key.value, pae, signature.value) {
          assert EntryVerifies(t, key.value, pae, e.signatures[i]);
          return Ok(payload.value);
        }
      }
      i := i + 1;
    }
    r := Err(VerifyFailed);
  }

  // ----- what the two promise each other -----

  /** JSON and base64 give back what they were given. */
  ghost predicate Lawful(t: Tools) {
    && (forall e :: t.fromJson(t.toJson(e)) == Some(e))
    && (forall b :: t.decode64(t.encode64(b)) == Some(b))
  }

  /** The public key accepts what the private key signs. */
  ghost predicate KeyPair(t: Tools, privateKey: string, publicKey: string) {
    t.parseKey(publicKey).Some? &&
    forall m :: t.signKeyed(privateKey, m).Some? ==>
      EntryVerifies(t, t.parseKey(publicKey).value, m, Signature(t.signKeyed(privateKey, m).value, None))
  }

  /** The entry's signature covers the message under the key. */
  predicate Covers(t: Tools, key: string, message: string, entry: Signature) {
    && t.decode64(entry.sig).Some?
    && t.parseSignature(t.decode64(entry.sig).value).Some?
    && t.accepts(key, message, t.parseSignature(t.decode64(entry.sig).value).value)
  }

  /** Verification hands over a payload if and only if it is the envelope's, the key can be read,
      and some signature of the envelope covers the encoding of its type and that payload. */
  lemma {:induction false} VerifiesExactly(t: Tools, publicKey: string, envelope: string, payload: string)
    ensures Verified(t, publicKey, envelope) == Ok(payload) <==>
      && t.fromJson(envelope).Some? && t.parseKey(publicKey).Some?
      && var e, key := t.fromJson(envelope).value, t.parseKey(publicKey).value;
         && t.decode64(e.payload) == Some(payload)
         && exists i :: 0 <= i < |e.signatures| && Covers(t, key, Pae(e.payloadType, payload), e.signatures[i])
  {
    if t.fromJson(envelope).Some? && t.parseKey(publicKey).Some? {
      var e, key := t.fromJson(envelope).value, t.parseKey(publicKey).value;
      forall i | 0 <= i < |e.signatures|
        ensures Covers(t, key, Pae(e.payloadType, payload), e.signatures[i]) <==>
                EntryVerifies(t, key, Pae(e.payloadType, payload), e.signatures[i])
      {
      }
    }
  }

  /** Otherwise it fails with the first of these: the envelope, its payload, the key, the signatures. */
  lemma {:induction false} VerifyFailsWith(t: Tools, publicKey: string, envelope: string)
    ensures t.fromJson(envelope).None? <==> Verified(t, publicKey, envelope) == Err(BadPayload)
    ensures t.fromJson(envelope).Some? ==>
      (t.decode64(t.fromJson(envelope).value.payload).None? <==> Verified(t, publicKey, envelope) == Err(BadSignature))
    ensures t.fromJson(envelope).Some? && t.decode64(t.fromJson(envelope).value.payload).Some? ==>
      (t.parseKey(publicKey).None? <==> Verified(t, publicKey, envelope) == Err(BadPublicKey))
    ensures Verified(t, publicKey, envelope).Err? ==>
      Verified(t, publicKey, envelope).error in {BadPayload, BadSignature, BadPublicKey, VerifyFailed}
  {
  }

  /** What is signed is an envelope of the type and the payload with one signature, made of the
      encoding of both. */
  lemma {:induction false} SignedHasOneSignature(t: Tools, privateKey: string, payloadType: string, payload: string)
    requires Lawful(t)
    ensures Signed(t, privateKey, payloadType, payload).Ok? <==>
            t.signKeyed(privateKey, Pae(payloadType, payload)).Some?
    ensures Signed(t, privateKey, payloadType, payload).Ok? ==>
      && t.fromJson(Signed(t, privateKey, payloadType, payload).value).Some?
      && var e := t.fromJson(Signed(t, privateKey, payloadType, payload).value).value;
         && e.payloadType == payloadType && t.decode64(e.payload) == Some(payload) && |e.signatures| == 1
         && Some(e.signatures[0].sig) == t.signKeyed(privateKey, Pae(payloadType, payload))
         && e.signatures[0].keyid == None
  {
  }

  /** Verifying what was signed returns the payload. */
  lemma {:induction false} VerifyOfSign(t: Tools, privateKey: string, publicKey: string,
                                        payloadType: string, payload: string)
    requires Lawful(t) && KeyPair(t, privateKey, publicKey)
    requires Signed(t, privateKey, payloadType, payload).Ok?
    ensures Verified(t, publicKey, Signed(t, privateKey, payloadType, payload).value) == Ok(payload)
  {
    var sig := t.signKeyed(privateKey, Pae(payloadType, payload)).value;
    var e := Envelope(payloadType, t.encode64(payload), [Signature(sig, None)]);
    assert t.fromJson(t.toJson(e)) == Some(e);
    assert EntryVerifies(t, t.parseKey(publicKey).value, Pae(payloadType, payload), e.signatures[0]);
  }

  /** Where further entries stand, how many there are and how broken they are makes no
      difference, so long as none of them verifies. */
  lemma {:induction false} OnlyVerifyingEntriesCount(t: Tools, publicKey: string, e: Envelope, entries: seq<Signature>)
    requires Lawful(t) && t.parseKey(publicKey).Some? && t.decode64(e.payload).Some?
    requires
      var key, m := t.parseKey(publicKey).value, Pae(e.payloadType, t.decode64(e.payload).value);
      && (forall i :: 0 <= i < |entries| && EntryVerifies(t, key, m, entries[i]) ==> entries[i] in e.signatures)
      && (forall i :: 0 <= i < |e.signatures| && EntryVerifies(t, key, m, e.signatures[i]) ==>
            e.signatures[i] in entries)
    ensures Verified(t, publicKey, t.toJson(e.(signatures := entries))) == Verified(t, publicKey, t.toJson(e))
  {
    var key, m := t.parseKey(publicKey).value, Pae(e.payloadType, t.decode64(e.payload).value);
    assert t.fromJson(t.toJson(e)) == Some(e);
    assert t.fromJson(t.toJson(e.(signatures := entries))) == Some(e.(signatures := entries));
    if SomeVerifies(t, key, m, entries) {
      var i :| 0 <= i < |entries| && EntryVerifies(t, key, m, entries[i]);
      var j :| 0 <= j < |e.signatures| && e.signatures[j] == entries[i];
    }
    if SomeVerifies(t, key, m, e.signatures) {
      var j :| 0 <= j < |e.signatures| && EntryVerifies(t, key, m, e.signatures[j]);
      var i :| 0 <= i < |entries| && entries[i] == e.signatures[j];
    }
  }

  /** The key accepts only messages that were signed with it. */
  ghost predicate Unforgeable(t: Tools, key: string, signed: set<string>) {
    forall m, s :: t.accepts(key, m, s) ==> m in signed
  }

  /** A signature cannot be moved to another type or payload: whatever verifies was signed
      as that very pair. */
  lemma {:induction false} NoCrossTypeReuse(t: Tools, publicKey: string, e: Envelope, pairs: set<(string, string)>)
    requires Lawful(t) && t.parseKey(publicKey).Some?
    requires Unforgeable(t, t.parseKey(publicKey).value, set p | p in pairs :: Pae(p.0, p.1))
    requires Verified(t, publicKey, t.toJson(e)).Ok?
    ensures (e.payloadType, Verified(t, publicKey, t.toJson(e)).value) in pairs
  {
    var payload := Verified(t, publicKey, t.toJson(e)).value;
    var key := t.parseKey(publicKey).value;
    assert t.fromJson(t.toJson(e)) == Some(e);
    var m := Pae(e.payloadType, payload);
    assert SomeVerifies(t, key, m, e.signatures);
    var p :| p in pairs && Pae(p.0, p.1) == m;
    PaeInjective(p.0, p.1, e.payloadType, payload);
  }
}
