/**
 The plaintext of a history handoff: what the old device tells the new one about
 a bundle, tied to the link both are on. The reader is its unread bytes.
 */
module HistoryHandoff {
  import opened Numerals
  import opened HistoryFormat
  import HistoryBundle

  const MAX_ORIGIN := 2048

  /** The link a handoff belongs to. Digests and keys have their length by type
      in the original. */
  datatype Context = Context(origin: Bytes, link: Bytes, account: Bytes, source: Bytes, sourceKey: Bytes, recipient: Bytes,
                             recipientKey: Bytes, transferKey: Bytes, transcript: Bytes)
  {
    predicate Typed() { |transcript| == 32 && |sourceKey| == 32 && |recipientKey| == 32 && |transferKey| == 32 }
    predicate Short() { |link| <= MAX_ID && |account| <= MAX_ID && |source| <= MAX_ID && |recipient| <= MAX_ID }
    predicate Prefixable() { |link| < 65536 && |account| < 65536 && |source| < 65536 && |recipient| < 65536 }

    /** What sealing and opening both ask of a context before anything else. */
    predicate Valid() {
      && 0 < |origin| <= MAX_ORIGIN
      && ValidId(link) && ValidId(account) && ValidId(source) && ValidId(recipient)
      && source != recipient && sourceKey != recipientKey
    }
  }

  datatype Recovery = NoRecovery | Recovery(publicKey: Bytes, id: Bytes) {
    predicate Typed() { Recovery? ==> |publicKey| == 32 && |id| == 16 }
  }

  datatype Body = Body(blob: Bytes, ciphertextSha: Bytes, size: U64, snapshot: U64, headerSha: Bytes, key: Bytes,
                       noncePrefix: Bytes)
  {
    predicate Typed() { |ciphertextSha| == 32 && |headerSha| == 32 && |key| == 32 && |noncePrefix| == 8 }
  }

  datatype Payload = Payload(body: Body, recovery: Recovery)

  // Writing

  function WriteContext(c: Context): Bytes {
    [1] + (Lp(c.link) + (c.transcript + (Lp(c.account) + (Lp(c.source) + Lp(c.recipient)))))
  }

  function WriteBody(b: Body): Bytes {
    Lp(b.blob) + (b.ciphertextSha + (BytesOf(b.size, 8) + (BytesOf(b.snapshot, 8)
    + (b.headerSha + (b.key + b.noncePrefix)))))
  }

  function WriteRecovery(r: Recovery): Bytes {
    match r
    case NoRecovery => [0]
    case Recovery(publicKey, id) => [1] + (publicKey + id)
  }

  /** recoveryId is the original's hash of a recovery public key. */
  predicate Allowed(recoveryId: Bytes -> Bytes, p: Payload) {
    && ValidId(p.body.blob)
    && 0 < p.body.size <= HistoryBundle.MAX_CIPHERTEXT
    && p.body.snapshot != 0
    && (p.recovery.Recovery? ==> recoveryId(p.recovery.publicKey) == p.recovery.id)
  }

  function Encode(recoveryId: Bytes -> Bytes, c: Context, p: Payload): Result<Bytes> {
    if !Allowed(recoveryId, p) || !c.Prefixable() then Err(InvalidInput)
    else Ok(WriteContext(c) + (WriteBody(p.body) + WriteRecovery(p.recovery)))
  }

  // Reading

  /** Takes the context off the input, refusing any other. */
  function ReadContext(b: Bytes, c: Context): Result<Bytes> {
    var version :- TakeBytes(b, 1);
    if version.value != [1] then Err(Authentication)
    else
      var link :- TakeLp(version.rest, MAX_ID);
      if link.value != c.link then Err(Authentication)
      else
        var transcript :- TakeBytes(link.rest, 32);
        if transcript.value != c.transcript then Err(Authentication)
        else ReadParties(transcript.rest, c)
  }

  function ReadParties(b: Bytes, c: Context): Result<Bytes> {
    var account :- TakeLp(b, MAX_ID);
    if account.value != c.account then Err(Authentication)
    else
      var source :- TakeLp(account.rest, MAX_ID);
      if source.value != c.source then Err(Authentication)
      else
        var recipient :- TakeLp(source.rest, MAX_ID);
        if recipient.value != c.recipient then Err(Authentication) else Ok(recipient.rest)
  }

  function ReadBody(b: Bytes): Result<Parsed<Body>> {
    var blob :- TakeLp(b, MAX_ID);
    var ciphertextSha :- TakeBytes(blob.rest, 32);
    var size :- TakeU64(ciphertextSha.rest);
    var snapshot :- TakeU64(size.rest);
    var keys :- ReadKeys(snapshot.rest);
    Ok(Parsed(Body(blob.value, ciphertextSha.value, size.value, snapshot.value, keys.value.0, keys.value.1, keys.value.2),
              keys.rest))
  }

  function ReadKeys(b: Bytes): Result<Parsed<(Bytes, Bytes, Bytes)>> {
    var headerSha :- TakeBytes(b, 32);
    var key :- TakeBytes(headerSha.rest, 32);
    var noncePrefix :- TakeBytes(key.rest, 8);
    Ok(Parsed((headerSha.value, key.value, noncePrefix.value), noncePrefix.rest))
  }

  function ReadRecovery(b: Bytes): Result<Parsed<Recovery>> {
    var flag :- TakeBytes(b, 1);
    if flag.value == [0] then Ok(Parsed(NoRecovery, flag.rest))
    else if flag.value != [1] then Err(InvalidInput)
    else
      var publicKey :- TakeBytes(flag.rest, 32);
      var id :- TakeBytes(publicKey.rest, 16);
      Ok(Parsed(Recovery(publicKey.value, id.value), id.rest))
  }

  function Decode(recoveryId: Bytes -> Bytes, b: Bytes, c: Context): Result<Payload> {
    var rest :- ReadContext(b, c);
    var body :- ReadBody(rest);
    var recovery :- ReadRecovery(body.rest);
    if recovery.rest != [] then Err(InvalidInput)
    else
      var payload := Payload(body.value, recovery.value);
      var checked :- Encode(recoveryId, c, payload);
      Ok(payload)
  }

  // Each part both ways

  lemma PartiesExact(c: Context, b: Bytes, t: Bytes)
    ensures ReadParties(b, c) == Ok(t) <==>
            && |c.account| <= MAX_ID && |c.source| <= MAX_ID && |c.recipient| <= MAX_ID
            && b == Lp(c.account) + (Lp(c.source) + (Lp(c.recipient) + t))
  {
    var t2 := Lp(c.recipient) + t;
    var t1 := Lp(c.source) + t2;
    LpExact(c.account, MAX_ID, b, t1);
    LpExact(c.source, MAX_ID, t1, t2);
    LpExact(c.recipient, MAX_ID, t2, t);
    if ReadParties(b, c) == Ok(t) {
      var account := TakeLp(b, MAX_ID).value;
      var source := TakeLp(account.rest, MAX_ID).value;
      LpExact(c.recipient, MAX_ID, source.rest, t);
      LpExact(c.source, MAX_ID, account.rest, source.rest);
      LpExact(c.account, MAX_ID, b, account.rest);
    }
  }

  lemma ContextExact(c: Context, b: Bytes, t: Bytes)
    requires c.Typed()
    ensures ReadContext(b, c) == Ok(t) <==> c.Short() && b == WriteContext(c) + t
  {
    var t3 := Lp(c.account) + (Lp(c.source) + (Lp(c.recipient) + t));
    var t2 := c.transcript + t3;
    var t1 := Lp(c.link) + t2;
    assert WriteContext(c) + t == [1] + t1;
    BytesExact([1], b, t1);
    LpExact(c.link, MAX_ID, t1, t2);
    BytesExact(c.transcript, t2, t3);
    PartiesExact(c, t3, t);
    if ReadContext(b, c) == Ok(t) {
      var version := TakeBytes(b, 1).value;
      var link := TakeLp(version.rest, MAX_ID).value;
      var transcript := TakeBytes(link.rest, 32).value;
      PartiesExact(c, transcript.rest, t);
      BytesExact(c.transcript, link.rest, transcript.rest);
      LpExact(c.link, MAX_ID, version.rest, link.rest);
      BytesExact([1], b, version.rest);
    }
  }

  lemma KeysExact(x: Bytes, y: Bytes, z: Bytes, b: Bytes, t: Bytes)
    ensures ReadKeys(b) == Ok(Parsed((x, y, z), t)) <==> |x| == 32 && |y| == 32 && |z| == 8 && b == x + (y + (z + t))
  {
    BytesExact(x, b, y + (z + t));
    BytesExact(y, y + (z + t), z + t);
    BytesExact(z, z + t, t);
  }

  lemma BodyExact(body: Body, b: Bytes, t: Bytes)
    ensures ReadBody(b) == Ok(Parsed(body, t)) <==> body.Typed() && |body.blob| <= MAX_ID && b == WriteBody(body) + t
  {
    var t4 := body.headerSha + (body.key + (body.noncePrefix + t));
    var t3 := BytesOf(body.snapshot, 8) + t4;
    var t2 := BytesOf(body.size, 8) + t3;
    var t1 := body.ciphertextSha + t2;
    assert WriteBody(body) + t == Lp(body.blob) + t1;
    LpExact(body.blob, MAX_ID, b, t1);
    BytesExact(body.ciphertextSha, t1, t2);
    U64Exact(body.size, t2, t3);
    U64Exact(body.snapshot, t3, t4);
    KeysExact(body.headerSha, body.key, body.noncePrefix, t4, t);
    if ReadBody(b) == Ok(Parsed(body, t)) {
      var blob := TakeLp(b, MAX_ID).value;
      var ciphertextSha := TakeBytes(blob.rest, 32).value;
      var size := TakeU64(ciphertextSha.rest).value;
      var snapshot := TakeU64(size.rest).value;
      KeysExact(body.headerSha, body.key, body.noncePrefix, snapshot.rest, t);
      U64Exact(body.snapshot, size.rest, snapshot.rest);
      U64Exact(body.size, ciphertextSha.rest, size.rest);
      BytesExact(body.ciphertextSha, blob.rest, ciphertextSha.rest);
      LpExact(body.blob, MAX_ID, b, blob.rest);
    }
  }

  lemma RecoveryExact(r: Recovery, b: Bytes, t: Bytes)
    ensures ReadRecovery(b) == Ok(Parsed(r, t)) <==> r.Typed() && b == WriteRecovery(r) + t
  {
    if r.NoRecovery? {
      BytesExact([0], b, t);
    } else {
      var t1 := r.publicKey + (r.id + t);
      assert WriteRecovery(r) + t == [1] + t1;
      BytesExact([1], b, t1);
      BytesExact(r.publicKey, t1, r.id + t);
      BytesExact(r.id, r.id + t, t);
    }
  }

  lemma DecodesEncoded(recoveryId: Bytes -> Bytes, c: Context, p: Payload)
    requires c.Typed() && c.Short() && p.body.Typed() && p.recovery.Typed() && Encode(recoveryId, c, p).Ok?
    ensures Decode(recoveryId, Encode(recoveryId, c, p).value, c) == Ok(p)
  {
    var x, y, z := WriteContext(c), WriteBody(p.body), WriteRecovery(p.recovery);
    assert ReadContext(x + (y + z), c) == Ok(y + z) by {
      ContextExact(c, x + (y + z), y + z);
    }
    assert ReadBody(y + z) == Ok(Parsed(p.body, z)) by {
      BodyExact(p.body, y + z, z);
    }
    assert ReadRecovery(z) == Ok(Parsed(p.recovery, [])) by {
      RecoveryExact(p.recovery, z, []);
      assert z + [] == z;
    }
  }

  lemma EncodesDecoded(recoveryId: Bytes -> Bytes, b: Bytes, c: Context)
    requires c.Typed() && Decode(recoveryId, b, c).Ok?
    ensures var p := Decode(recoveryId, b, c).value;
      c.Short() && p.body.Typed() && p.recovery.Typed() && Encode(recoveryId, c, p) == Ok(b)
  {
    var rest := ReadContext(b, c).value;
    var body := ReadBody(rest).value;
    var recovery := ReadRecovery(body.rest).value;
    assert c.Short() && b == WriteContext(c) + rest by {
      ContextExact(c, b, rest);
    }
    assert body.value.Typed() && rest == WriteBody(body.value) + body.rest by {
      BodyExact(body.value, rest, body.rest);
    }
    assert recovery.value.Typed() && body.rest == WriteRecovery(recovery.value) by {
      RecoveryExact(recovery.value, body.rest, []);
      assert WriteRecovery(recovery.value) + [] == WriteRecovery(recovery.value);
    }
  }

  /** A handoff is read exactly from its own encoding under the same link, and
      from nothing else. Encoding alone would take longer names than reading
      does, so short names are the exact condition. */
  lemma HandoffExact(recoveryId: Bytes -> Bytes, b: Bytes, c: Context, p: Payload)
    requires c.Typed()
    ensures Decode(recoveryId, b, c) == Ok(p) <==>
            c.Short() && p.body.Typed() && p.recovery.Typed() && Encode(recoveryId, c, p) == Ok(b)
  {
    if Decode(recoveryId, b, c).Ok? {
      EncodesDecoded(recoveryId, b, c);
    }
    if c.Short() && p.body.Typed() && p.recovery.Typed() && Encode(recoveryId, c, p) == Ok(b) {
      DecodesEncoded(recoveryId, c, p);
    }
  }

  /** So what was encoded is read back exactly when no name is too long, and
      always under a context that sealing accepts. */
  lemma EncodedIsRead(recoveryId: Bytes -> Bytes, c: Context, p: Payload, b: Bytes)
    requires c.Typed() && p.body.Typed() && p.recovery.Typed() && Encode(recoveryId, c, p) == Ok(b)
    ensures Decode(recoveryId, b, c) == Ok(p) <==> c.Short()
    ensures Decode(recoveryId, b, c).Ok? <==> c.Short()
    ensures c.Valid() ==> Decode(recoveryId, b, c) == Ok(p)
  {
    HandoffExact(recoveryId, b, c, p);
    if Decode(recoveryId, b, c).Ok? {
      HandoffExact(recoveryId, b, c, Decode(recoveryId, b, c).value);
    }
  }

  function Fill(x: Byte, n: nat): Bytes { seq(n, _ => x) }

  /** The encoder relies on that check: alone it takes a link name that is one
      byte too long for the reader. */
  lemma GuardIsNeeded(recoveryId: Bytes -> Bytes) returns (c: Context, p: Payload, b: Bytes)
    ensures c.Typed() && !c.Valid() && c.(link := [1]).Valid()
    ensures Encode(recoveryId, c, p) == Ok(b) && Decode(recoveryId, b, c).Err?
  {
    c := Context([1], Fill(1, MAX_ID + 1), [1], [1], Fill(1, 32), [2], Fill(2, 32), Fill(3, 32), Fill(0, 32));
    p := Payload(Body([1], Fill(0, 32), 1, 1, Fill(0, 32), Fill(0, 32), Fill(0, 8)), NoRecovery);
    b := WriteContext(c) + (WriteBody(p.body) + WriteRecovery(p.recovery));
    assert c.sourceKey[0] != c.recipientKey[0];
    EncodedIsRead(recoveryId, c, p, b);
  }
}
