/**
 A sealed handoff: its plaintext encrypted to the new device under everything
 both devices have pinned, and signed by the old one. Hybrid encryption opens
 exactly what it sealed, and a signature verifies exactly when it is the
 signer's own; both are parameters.
 */
module HistoryTransfer {
  import opened Numerals
  import opened HistoryFormat
  import opened HistoryHandoff
  import opened HistoryBundle

  const MAX_HANDOFF := 8192

  /** "VHH1", "veritra-k2-handoff-v1", "-aad-v1" and "-sig-v1", and
      "veritra-device-link-v3" */
  const HANDOFF_MAGIC: Bytes := [86, 72, 72, 49]
  const HANDOFF_INFO: Bytes := [118, 101, 114, 105, 116, 114, 97, 45, 107, 50, 45, 104, 97, 110, 100, 111, 102, 102, 45, 118, 49]
  const HANDOFF_AAD: Bytes :=
    [118, 101, 114, 105, 116, 114, 97, 45, 107, 50, 45, 104, 97, 110, 100, 111, 102, 102, 45, 97, 97, 100, 45, 118, 49]
  const HANDOFF_SIGNATURE: Bytes :=
    [118, 101, 114, 105, 116, 114, 97, 45, 107, 50, 45, 104, 97, 110, 100, 111, 102, 102, 45, 115, 105, 103, 45, 118, 49]
  const LINK_VERSION: Bytes := [118, 101, 114, 105, 116, 114, 97, 45, 100, 101, 118, 105, 99, 101, 45, 108, 105, 110, 107, 45, 118, 51]

  /** A signer is named by its public key, and kem is the random part of a
      sealing. */
  datatype Keys = Keys(publicOf: Bytes -> Bytes,
                       seal: (Bytes, Bytes, Bytes, Bytes, Bytes) -> Bytes,
                       open: (Bytes, Bytes, Bytes, Bytes, Bytes) -> Option<Bytes>,
                       sign: (Bytes, Bytes) -> Bytes,
                       verify: (Bytes, Bytes, Bytes) -> bool,
                       recoveryId: Bytes -> Bytes)
  {
    ghost predicate Lawful() {
      && (forall key, kem, info, aad, m :: |seal(key, kem, info, aad, m)| == |m| + 16)
      && (forall secret, kem, info, aad, m, x ::
            open(secret, kem, info, aad, x) == Some(m) <==> x == seal(publicOf(secret), kem, info, aad, m))
      && (forall key, m :: |sign(key, m)| == 64)
      && (forall key, m, x :: verify(key, m, x) <==> x == sign(key, m))
    }
  }

  // What both devices have pinned

  function Pinned(c: Context): seq<Bytes> {
    [LINK_VERSION, c.origin, c.link, c.account, c.source, c.sourceKey, c.recipient, c.recipientKey, c.transferKey, c.transcript]
  }

  /** The fields from the i-th on, each with its length before it. */
  function Packed(fields: seq<Bytes>, i: nat): Bytes
    requires i <= |fields|
    decreases |fields| - i
  {
    if i == |fields| then [] else Lp(fields[i]) + Packed(fields, i + 1)
  }

  predicate Prefixed(fields: seq<Bytes>) { forall i | 0 <= i < |fields| :: |fields[i]| < 65536 }

  function ContextAad(c: Context): Result<Bytes> {
    if !c.Valid() || !Prefixed(Pinned(c)) then Err(InvalidInput) else Ok(HANDOFF_AAD + Packed(Pinned(c), 0))
  }

  method BuildContextAad(c: Context) returns (r: Result<Bytes>)
    ensures r == ContextAad(c)
  {
    if !c.Valid() {
      return Err(InvalidInput);
    }
    var fields := Pinned(c);
    var bytes := HANDOFF_AAD;
    for i := 0 to |fields|
      invariant bytes + Packed(fields, i) == HANDOFF_AAD + Packed(fields, 0)
      invariant forall j | 0 <= j < i :: |fields[j]| < 65536
    {
      if |fields[i]| >= 65536 {
        return Err(InvalidInput);
      }
      assert bytes + (Lp(fields[i]) + Packed(fields, i + 1)) == (bytes + Lp(fields[i])) + Packed(fields, i + 1);
      bytes := bytes + Lp(fields[i]);
    }
    assert bytes + [] == bytes;
    r := Ok(bytes);
  }

  lemma {:induction false} PackedIsInjective(xs: seq<Bytes>, ys: seq<Bytes>, i: nat)
    requires |xs| == |ys| && i <= |xs| && Prefixed(xs) && Prefixed(ys) && Packed(xs, i) == Packed(ys, i)
    ensures forall j | i <= j < |xs| :: xs[j] == ys[j]
    decreases |xs| - i
  {
    if i < |xs| {
      LpExact(xs[i], 65535, Packed(xs, i), Packed(xs, i + 1));
      LpExact(ys[i], 65535, Packed(ys, i), Packed(ys, i + 1));
      PackedIsInjective(xs, ys, i + 1);
    }
  }

  /** Two contexts with the same associated data are the same in every field. */
  lemma AadIsInjective(c: Context, d: Context)
    requires ContextAad(c).Ok? && ContextAad(d).Ok?
    ensures ContextAad(c) == ContextAad(d) <==> c == d
  {
    if ContextAad(c) == ContextAad(d) {
      var x, y := Packed(Pinned(c), 0), Packed(Pinned(d), 0);
      assert (HANDOFF_AAD + x)[|HANDOFF_AAD|..] == x && (HANDOFF_AAD + y)[|HANDOFF_AAD|..] == y;
      PackedIsInjective(Pinned(c), Pinned(d), 0);
      SamePinned(c, d);
    }
  }

  lemma SamePinned(c: Context, d: Context)
    requires forall j | 0 <= j < 10 :: Pinned(c)[j] == Pinned(d)[j]
    ensures c == d
  {
    assert Pinned(c)[1] == Pinned(d)[1] && Pinned(c)[2] == Pinned(d)[2] && Pinned(c)[3] == Pinned(d)[3];
    assert Pinned(c)[4] == Pinned(d)[4] && Pinned(c)[5] == Pinned(d)[5] && Pinned(c)[6] == Pinned(d)[6];
    assert Pinned(c)[7] == Pinned(d)[7] && Pinned(c)[8] == Pinned(d)[8] && Pinned(c)[9] == Pinned(d)[9];
  }

  // The envelope

  datatype Parts = Parts(kem: Bytes, body: Bytes, signature: Bytes) {
    predicate Typed() { |kem| == 32 && |signature| == 64 && 16 <= |body| <= MAX_HANDOFF }
  }

  function Envelope(e: Parts): Bytes { HANDOFF_MAGIC + (Lp(e.kem) + (Lp(e.body) + Lp(e.signature))) }

  function ReadEnvelope(b: Bytes): Result<Parts> {
    var magic :- TakeBytes(b, 4);
    if magic.value != HANDOFF_MAGIC then Err(InvalidInput)
    else
      var kem :- TakeLp(magic.rest, 32);
      var body :- TakeLp(kem.rest, MAX_HANDOFF);
      var signature :- TakeLp(body.rest, 64);
      var e := Parts(kem.value, body.value, signature.value);
      if !e.Typed() || signature.rest != [] then Err(InvalidInput) else Ok(e)
  }

  lemma EnvelopeExact(e: Parts, b: Bytes)
    ensures ReadEnvelope(b) == Ok(e) <==> e.Typed() && b == Envelope(e)
  {
    var t2 := Lp(e.signature) + [];
    var t1 := Lp(e.body) + t2;
    var t0 := Lp(e.kem) + t1;
    assert Envelope(e) == HANDOFF_MAGIC + t0;
    if e.Typed() && b == Envelope(e) {
      BytesExact(HANDOFF_MAGIC, b, t0);
      LpExact(e.kem, 32, t0, t1);
      LpExact(e.body, MAX_HANDOFF, t1, t2);
      LpExact(e.signature, 64, t2, []);
    }
    if ReadEnvelope(b) == Ok(e) {
      var magic := TakeBytes(b, 4).value;
      var kem := TakeLp(magic.rest, 32).value;
      var body := TakeLp(kem.rest, MAX_HANDOFF).value;
      LpExact(e.signature, 64, body.rest, []);
      LpExact(e.body, MAX_HANDOFF, kem.rest, body.rest);
      LpExact(e.kem, 32, magic.rest, kem.rest);
      BytesExact(HANDOFF_MAGIC, b, magic.rest);
    }
  }

  // Sealing and opening

  function SignatureMessage(hash: Bytes, kem: Bytes, body: Bytes): Result<Bytes> {
    if |kem| >= 65536 || |body| >= 65536 then Err(InvalidInput)
    else Ok(HANDOFF_SIGNATURE + (hash + (Lp(kem) + Lp(body))))
  }

  function Info(linkKey: Bytes, c: Context): Bytes { HANDOFF_INFO + (linkKey + c.transcript) }

  function SealHandoff(k: Keys, signer: Bytes, c: Context, linkKey: Bytes, kem: Bytes, p: Payload): Result<Bytes> {
    if signer != c.sourceKey then Err(InvalidInput)
    else
      var aad :- ContextAad(c);
      var plaintext :- Encode(k.recoveryId, c, p);
      var body := k.seal(c.transferKey, kem, Info(linkKey, c), aad, plaintext);
      var message :- SignatureMessage(c.transcript, kem, body);
      var e := Parts(kem, body, k.sign(signer, message));
      if |kem| != 32 || |e.signature| != 64 then Err(CryptoFailure)
      else if |Envelope(e)| > MAX_HANDOFF then Err(InvalidInput)
      else Ok(Envelope(e))
  }

  function OpenHandoff(k: Keys, secret: Bytes, c: Context, linkKey: Bytes, b: Bytes): Result<Payload> {
    if |b| > MAX_HANDOFF || k.publicOf(secret) != c.transferKey then Err(InvalidInput)
    else
      var aad :- ContextAad(c);
      var e :- ReadEnvelope(b);
      var message :- SignatureMessage(c.transcript, e.kem, e.body);
      if !k.verify(c.sourceKey, message, e.signature) then Err(Authentication)
      else
        var plaintext := k.open(secret, e.kem, Info(linkKey, c), aad, e.body);
        if plaintext.None? then Err(Authentication) else Decode(k.recoveryId, plaintext.value, c)
  }

  lemma PlaintextFits(recoveryId: Bytes -> Bytes, c: Context, p: Payload)
    requires c.Typed() && c.Short() && p.body.Typed() && p.recovery.Typed() && Encode(recoveryId, c, p).Ok?
    ensures |Encode(recoveryId, c, p).value| <= 852
  {
    assert |WriteContext(c)| <= 553 && |WriteBody(p.body)| <= 250 && |WriteRecovery(p.recovery)| <= 49;
  }

  /** Every payload that may be sent is sealed, under every context that passes
      the checks: the size limits never get in the way. */
  lemma SealsExactly(k: Keys, signer: Bytes, c: Context, linkKey: Bytes, kem: Bytes, p: Payload)
    requires k.Lawful() && c.Typed() && p.body.Typed() && p.recovery.Typed()
    ensures SealHandoff(k, signer, c, linkKey, kem, p).Ok? <==>
            signer == c.sourceKey && c.Valid() && Allowed(k.recoveryId, p) && |kem| == 32
  {
    assert c.Valid() ==> ContextAad(c).Ok? && Encode(k.recoveryId, c, p).Ok? == Allowed(k.recoveryId, p);
    if c.Valid() && Allowed(k.recoveryId, p) {
      PlaintextFits(k.recoveryId, c, p);
    }
  }

  lemma OpensSealedHandoff(k: Keys, secret: Bytes, c: Context, linkKey: Bytes, kem: Bytes, p: Payload)
    requires k.Lawful() && c.Typed() && p.body.Typed() && p.recovery.Typed() && k.publicOf(secret) == c.transferKey
    requires SealHandoff(k, c.sourceKey, c, linkKey, kem, p).Ok?
    ensures OpenHandoff(k, secret, c, linkKey, SealHandoff(k, c.sourceKey, c, linkKey, kem, p).value) == Ok(p)
  {
    var aad, plaintext := ContextAad(c).value, Encode(k.recoveryId, c, p).value;
    var body := k.seal(c.transferKey, kem, Info(linkKey, c), aad, plaintext);
    var message := SignatureMessage(c.transcript, kem, body).value;
    var e := Parts(kem, body, k.sign(c.sourceKey, message));
    EncodedIsRead(k.recoveryId, c, p, plaintext);
    assert e.Typed() by {
      PlaintextFits(k.recoveryId, c, p);
    }
    EnvelopeExact(e, Envelope(e));
    assert k.open(secret, kem, Info(linkKey, c), aad, body) == Some(plaintext);
  }

  lemma SealedIfOpened(k: Keys, secret: Bytes, c: Context, linkKey: Bytes, b: Bytes) returns (kem: Bytes)
    requires k.Lawful() && c.Typed() && OpenHandoff(k, secret, c, linkKey, b).Ok?
    ensures var p := OpenHandoff(k, secret, c, linkKey, b).value;
            && p.body.Typed() && p.recovery.Typed() && k.publicOf(secret) == c.transferKey && |kem| == 32
            && SealHandoff(k, c.sourceKey, c, linkKey, kem, p) == Ok(b)
  {
    var aad, e := ContextAad(c).value, ReadEnvelope(b).value;
    EnvelopeExact(e, b);
    kem := e.kem;
    var plaintext := k.open(secret, e.kem, Info(linkKey, c), aad, e.body).value;
    assert e.body == k.seal(c.transferKey, e.kem, Info(linkKey, c), aad, plaintext);
    EncodesDecoded(k.recoveryId, plaintext, c);
  }

  /** Some sealing by the source of this context, with this link key. */
  ghost predicate SealedAs(k: Keys, c: Context, linkKey: Bytes, p: Payload, b: Bytes) {
    exists kem :: SealHandoff(k, c.sourceKey, c, linkKey, kem, p) == Ok(b)
  }

  /** The new device gets a payload out of some bytes exactly when they are, byte
      for byte, a sealing of that payload by the old device, for this device's
      key, under the very same context and link key. */
  lemma HandoffOpensExactly(k: Keys, secret: Bytes, c: Context, linkKey: Bytes, b: Bytes, p: Payload)
    requires k.Lawful() && c.Typed()
    ensures OpenHandoff(k, secret, c, linkKey, b) == Ok(p) <==>
            && k.publicOf(secret) == c.transferKey && p.body.Typed() && p.recovery.Typed()
            && SealedAs(k, c, linkKey, p, b)
  {
    if OpenHandoff(k, secret, c, linkKey, b) == Ok(p) {
      var kem := SealedIfOpened(k, secret, c, linkKey, b);
    }
    if k.publicOf(secret) == c.transferKey && p.body.Typed() && p.recovery.Typed() && SealedAs(k, c, linkKey, p, b) {
      var kem :| SealHandoff(k, c.sourceKey, c, linkKey, kem, p) == Ok(b);
      OpensSealedHandoff(k, secret, c, linkKey, kem, p);
    }
  }

  // As they run

  method ReadParts(b: Bytes) returns (r: Result<Parts>)
    ensures r == ReadEnvelope(b)
  {
    var reader := new Reader(b);
    var magic :- reader.Take(4);
    if magic != HANDOFF_MAGIC {
      return Err(InvalidInput);
    }
    var kem :- reader.LengthPrefixed(32);
    var body :- reader.LengthPrefixed(MAX_HANDOFF);
    var signature :- reader.LengthPrefixed(64);
    var e := Parts(kem, body, signature);
    if !e.Typed() || reader.offset != |b| {
      return Err(InvalidInput);
    }
    r := Ok(e);
  }

  method Open(k: Keys, secret: Bytes, c: Context, linkKey: Bytes, b: Bytes) returns (r: Result<Payload>)
    ensures r == OpenHandoff(k, secret, c, linkKey, b)
  {
    if |b| > MAX_HANDOFF || k.publicOf(secret) != c.transferKey {
      return Err(InvalidInput);
    }
    var aad :- BuildContextAad(c);
    var e :- ReadParts(b);
    var message :- SignatureMessage(c.transcript, e.kem, e.body);
    if !k.verify(c.sourceKey, message, e.signature) {
      return Err(Authentication);
    }
    var plaintext := k.open(secret, e.kem, Info(linkKey, c), aad, e.body);
    if plaintext.None? {
      return Err(Authentication);
    }
    r := Decode(k.recoveryId, plaintext.value, c);
  }
}
