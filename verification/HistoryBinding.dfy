/**
 What a sealed bundle and a sealed handoff are bound to. Ciphertexts are not
 assumed to be unforgeable (that some ciphertext opens in two places cannot be
 excluded by counting); a piece that opens away from where it was sealed is named
 as a stray, and without one, nothing can be moved: not a chunk to another place
 or header, nor a handoff to another link.
 */
module HistoryBinding {
  import opened Numerals
  import opened HistoryFormat
  import opened HistoryBundle
  import Handoff = HistoryHandoff
  import Transfer = HistoryTransfer

  // Chunks

  /** A chunk as it was sealed: under which header, at which place. */
  datatype Piece = Piece(header: Bytes, index: nat, plain: Bytes) {
    function Sealed(c: Crypto, s: Secrets): Bytes { c.encrypt(s, index, ChunkContext(c, header), plain) }
  }

  /** Pieces one after the other, from the k-th on. */
  function Body(c: Crypto, s: Secrets, ps: seq<Piece>, k: nat): Bytes
    requires k <= |ps|
    decreases |ps| - k
  {
    if k == |ps| then [] else BytesOf(|ps[k].Sealed(c, s)|, 4) + (ps[k].Sealed(c, s) + Body(c, s, ps, k + 1))
  }

  predicate OpensAt(c: Crypto, s: Secrets, p: Piece, header: Bytes, index: nat) {
    c.decrypt(s, index, ChunkContext(c, header), p.Sealed(c, s)).Some?
  }

  /** The cipher opens it with a number or a context it was not sealed with. */
  predicate Strays(c: Crypto, s: Secrets, p: Piece, header: Bytes, index: nat) {
    (p.index != index || ChunkContext(c, p.header) != ChunkContext(c, header)) && OpensAt(c, s, p, header, index)
  }

  /** A chunk's context tells headers apart by their hash. */
  lemma ContextIsInjective(c: Crypto, x: Bytes, y: Bytes)
    ensures ChunkContext(c, x) == ChunkContext(c, y) <==> c.sha(x) == c.sha(y)
  {
    var n := |BUNDLE_CONTEXT|;
    assert ChunkContext(c, x)[n..] == c.sha(x) && ChunkContext(c, y)[n..] == c.sha(y);
  }

  predicate Small(ps: seq<Piece>) { forall j | 0 <= j < |ps| :: |ps[j].plain| <= MAX_CHUNK }

  /** The pieces from the k-th on open under a header, with nothing left over. */
  predicate OpensWhole(c: Crypto, s: Secrets, ps: seq<Piece>, k: nat, header: Bytes, left: nat)
    requires k <= |ps|
  {
    var r := OpenChunks(c, s, ChunkContext(c, header), Body(c, s, ps, k), k, left);
    r.Ok? && r.value.rest == []
  }

  lemma FirstPiece(c: Crypto, s: Secrets, ps: seq<Piece>, k: nat, header: Bytes, left: nat)
    requires c.Lawful() && k < |ps| && Small(ps) && OpensWhole(c, s, ps, k, header, left)
    ensures left > 0 && OpensAt(c, s, ps[k], header, k) && OpensWhole(c, s, ps, k + 1, header, left - Span(left))
  {
    var x, rest := ps[k].Sealed(c, s), Body(c, s, ps, k + 1);
    assert |Body(c, s, ps, k)| >= 4 && left > 0;
    assert Full(4) == 0x1_0000_0000;
    NumberExact(|x|, 4, Body(c, s, ps, k), x + rest);
    BytesExact(x, x + rest, rest);
  }

  lemma {:induction false} EachOpens(c: Crypto, s: Secrets, ps: seq<Piece>, k: nat, header: Bytes, left: nat)
    requires c.Lawful() && k <= |ps| && Small(ps) && OpensWhole(c, s, ps, k, header, left)
    ensures forall j | k <= j < |ps| :: OpensAt(c, s, ps[j], header, j)
    decreases |ps| - k
  {
    if k < |ps| {
      FirstPiece(c, s, ps, k, header, left);
      EachOpens(c, s, ps, k + 1, header, left - Span(left));
    }
  }

  /** Sealed chunks are pieces of one header, each at its own place. */
  function PiecesOf(header: Bytes, frame: Bytes, index: nat): seq<Piece>
    decreases |frame|
  {
    if frame == [] then []
    else [Piece(header, index, frame[..Span(|frame|)])] + PiecesOf(header, frame[Span(|frame|)..], index + 1)
  }

  lemma {:induction false} BodyAfter(c: Crypto, s: Secrets, p: Piece, ps: seq<Piece>, k: nat)
    requires k <= |ps|
    ensures Body(c, s, [p] + ps, k + 1) == Body(c, s, ps, k)
    decreases |ps| - k
  {
    if k < |ps| {
      BodyAfter(c, s, p, ps, k + 1);
    }
  }

  lemma {:induction false} SealedIsBody(c: Crypto, s: Secrets, header: Bytes, frame: Bytes, index: nat)
    ensures SealChunks(c, s, ChunkContext(c, header), frame, index) == Body(c, s, PiecesOf(header, frame, index), 0)
    ensures Small(PiecesOf(header, frame, index)) && (frame != [] ==> PiecesOf(header, frame, index) != [])
    decreases |frame|
  {
    if frame != [] {
      var n := Span(|frame|);
      var p, rest := Piece(header, index, frame[..n]), PiecesOf(header, frame[n..], index + 1);
      SealedIsBody(c, s, header, frame[n..], index + 1);
      BodyAfter(c, s, p, rest, 0);
    }
  }

  /** A bundle put together from chunks of any bundles, in any order, with any
      header: if it opens and no chunk strays, every chunk was sealed under a
      header with this header's hash, and at the place where it is. */
  lemma BundleIsWhole(c: Crypto, s: Secrets, h: Header, padded: nat, ps: seq<Piece>, expected: Expected)
    requires c.Lawful() && Typed(h) && ValidHeader(h) && ValidPadding(padded) && Small(ps)
    requires forall j | 0 <= j < |ps| :: !Strays(c, s, ps[j], HeaderBytes(h, padded), j)
    requires OpenBundle(c, s, HeaderBytes(h, padded) + Body(c, s, ps, 0), expected).Ok?
    ensures forall j | 0 <= j < |ps| :: ps[j].index == j && c.sha(ps[j].header) == c.sha(HeaderBytes(h, padded))
  {
    var header, body := HeaderBytes(h, padded), Body(c, s, ps, 0);
    HeaderReads(h, padded, body);
    assert (header + body)[..|header + body| - |body|] == header;
    EachOpens(c, s, ps, 0, header, padded);
    forall j | 0 <= j < |ps| ensures ps[j].index == j && c.sha(ps[j].header) == c.sha(header) {
      ContextIsInjective(c, ps[j].header, header);
    }
  }

  /** In particular the chunks of one bundle do not open under the header of
      another one, unless the first of them strays. */
  lemma HeaderIsBound(c: Crypto, s: Secrets, sealed: Bytes, other: Bytes, frame: Bytes, left: nat)
    requires c.Lawful() && frame != [] && c.sha(sealed) != c.sha(other)
    requires var r := OpenChunks(c, s, ChunkContext(c, other), SealChunks(c, s, ChunkContext(c, sealed), frame, 0), 0, left);
             r.Ok? && r.value.rest == []
    ensures Strays(c, s, Piece(sealed, 0, frame[..Span(|frame|)]), other, 0)
  {
    SealedIsBody(c, s, sealed, frame, 0);
    ContextIsInjective(c, sealed, other);
    EachOpens(c, s, PiecesOf(sealed, frame, 0), 0, other, left);
    assert PiecesOf(sealed, frame, 0)[0] == Piece(sealed, 0, frame[..Span(|frame|)]);
  }

  // Handoffs

  /** The shared key of a link goes into every handoff, with the transcript. */
  lemma InfoIsInjective(x: Bytes, c: Handoff.Context, y: Bytes, d: Handoff.Context)
    requires |x| == |y| && |c.transcript| == |d.transcript|
    ensures Transfer.Info(x, c) == Transfer.Info(y, d) <==> x == y && c.transcript == d.transcript
  {
    var n := |Transfer.HANDOFF_INFO|;
    var a, b := Transfer.Info(x, c), Transfer.Info(y, d);
    assert a[n..n + |x|] == x && a[n + |x|..] == c.transcript;
    assert b[n..n + |y|] == y && b[n + |y|..] == d.transcript;
  }

  /** What is signed determines the transcript and both parts of the ciphertext. */
  lemma SignedIsInjective(x: Bytes, kem: Bytes, body: Bytes, y: Bytes, kem': Bytes, body': Bytes)
    requires |x| == |y| && Transfer.SignatureMessage(x, kem, body).Ok? && Transfer.SignatureMessage(y, kem', body').Ok?
    ensures Transfer.SignatureMessage(x, kem, body) == Transfer.SignatureMessage(y, kem', body') <==>
            x == y && kem == kem' && body == body'
  {
    var n := |Transfer.HANDOFF_SIGNATURE|;
    var a, b := Transfer.SignatureMessage(x, kem, body).value, Transfer.SignatureMessage(y, kem', body').value;
    assert a[n..n + |x|] == x && a[n + |x|..] == Lp(kem) + Lp(body);
    assert b[n..n + |y|] == y && b[n + |y|..] == Lp(kem') + Lp(body');
    if a == b {
      LpExact(kem, 65535, Lp(kem) + Lp(body), Lp(body));
      LpExact(kem', 65535, Lp(kem') + Lp(body'), Lp(body'));
      assert Lp(body) + [] == Lp(body) && Lp(body') + [] == Lp(body');
      LpExact(body, 65535, Lp(body), []);
      LpExact(body', 65535, Lp(body'), []);
    }
  }

  /** Hybrid encryption opens a box with a key, an info or associated data that it
      was not sealed with. */
  predicate BoxStrays(k: Transfer.Keys, secret: Bytes, c: Handoff.Context, x: Bytes, kem: Bytes, plaintext: Bytes,
                      d: Handoff.Context, y: Bytes)
    requires Transfer.ContextAad(c).Ok? && Transfer.ContextAad(d).Ok?
  {
    && (k.publicOf(secret) != c.transferKey || Transfer.Info(x, c) != Transfer.Info(y, d) || Transfer.ContextAad(c) != Transfer.ContextAad(d))
    && k.open(secret, kem, Transfer.Info(y, d), Transfer.ContextAad(d).value,
              k.seal(c.transferKey, kem, Transfer.Info(x, c), Transfer.ContextAad(c).value, plaintext)).Some?
  }

  /** A handoff opens only with the key, the link key and the whole context that it
      was sealed for, unless its box strays. */
  lemma HandoffIsBound(k: Transfer.Keys, c: Handoff.Context, x: Bytes, kem: Bytes, p: Handoff.Payload,
                       secret: Bytes, d: Handoff.Context, y: Bytes)
    requires k.Lawful() && c.Typed() && d.Typed() && |x| == 32 && |y| == 32
    requires Transfer.SealHandoff(k, c.sourceKey, c, x, kem, p).Ok?
    requires Transfer.OpenHandoff(k, secret, d, y, Transfer.SealHandoff(k, c.sourceKey, c, x, kem, p).value).Ok?
    ensures || (k.publicOf(secret) == c.transferKey && x == y && c == d)
            || BoxStrays(k, secret, c, x, kem, Handoff.Encode(k.recoveryId, c, p).value, d, y)
  {
    var aad, plaintext := Transfer.ContextAad(c).value, Handoff.Encode(k.recoveryId, c, p).value;
    var body := k.seal(c.transferKey, kem, Transfer.Info(x, c), aad, plaintext);
    var message := Transfer.SignatureMessage(c.transcript, kem, body).value;
    var e := Transfer.Parts(kem, body, k.sign(c.sourceKey, message));
    var b := Transfer.Envelope(e);
    var f := Transfer.ReadEnvelope(b).value;
    Transfer.EnvelopeExact(f, b);
    SameEnvelope(e, f);
    Transfer.AadIsInjective(c, d);
    InfoIsInjective(x, c, y, d);
  }

  lemma SameEnvelope(e: Transfer.Parts, f: Transfer.Parts)
    requires |e.kem| == 32 && |e.body| < 65536 && |e.signature| == 64 && f.Typed() && Transfer.Envelope(e) == Transfer.Envelope(f)
    ensures e == f
  {
    var a, b := Transfer.Envelope(e), Transfer.Envelope(f);
    var x, y := Lp(e.kem) + (Lp(e.body) + Lp(e.signature)), Lp(f.kem) + (Lp(f.body) + Lp(f.signature));
    assert a[4..] == x && b[4..] == y;
    LpExact(e.kem, 65535, x, Lp(e.body) + Lp(e.signature));
    LpExact(f.kem, 65535, y, Lp(f.body) + Lp(f.signature));
    LpExact(e.body, 65535, Lp(e.body) + Lp(e.signature), Lp(e.signature));
    LpExact(f.body, 65535, Lp(f.body) + Lp(f.signature), Lp(f.signature));
    assert Lp(e.signature) + [] == Lp(e.signature) && Lp(f.signature) + [] == Lp(f.signature);
    LpExact(e.signature, 65535, Lp(e.signature), []);
    LpExact(f.signature, 65535, Lp(f.signature), []);
  }

  // What can be handed over

  predicate IdSize(id: Bytes) { 1 <= |id| <= 128 }

  /** A handoff is sealed exactly by the context's source, for names of 1 to 128
      bytes, an origin of 1 to 2048, two different devices with different keys, a
      bundle of a possible size, a snapshot, and a recovery id that is its key's. */
  lemma HandoffIsGiven(k: Transfer.Keys, signer: Bytes, c: Handoff.Context, x: Bytes, kem: Bytes, p: Handoff.Payload)
    requires k.Lawful() && c.Typed() && p.body.Typed() && p.recovery.Typed()
    ensures Transfer.SealHandoff(k, signer, c, x, kem, p).Ok? <==>
      && signer == c.sourceKey && |kem| == 32 && 1 <= |c.origin| <= 2048
      && IdSize(c.link) && IdSize(c.account) && IdSize(c.source) && IdSize(c.recipient) && IdSize(p.body.blob)
      && c.source != c.recipient && c.sourceKey != c.recipientKey
      && 1 <= p.body.size <= 67_110_560 && p.body.snapshot >= 1
      && (p.recovery.Recovery? ==> p.recovery.id == k.recoveryId(p.recovery.publicKey))
  {
    Transfer.SealsExactly(k, signer, c, x, kem, p);
  }

  /** Every bundle that was sealed can be handed over, under every context that can
      be and every blob id. */
  lemma BundleCanBeHandedOver(b: Crypto, s: Secrets, h: Header, payload: Bytes, k: Transfer.Keys, c: Handoff.Context,
                              x: Bytes, kem: Bytes, p: Handoff.Payload)
    requires b.Lawful() && Typed(h) && SealBundle(b, s, h, payload).Ok?
    requires k.Lawful() && c.Typed() && c.Valid() && |kem| == 32 && p.body.Typed() && p.recovery == Handoff.NoRecovery
    requires IdSize(p.body.blob) && p.body.size == |SealBundle(b, s, h, payload).value| && p.body.snapshot == h.snapshot
    ensures Transfer.SealHandoff(k, c.sourceKey, c, x, kem, p).Ok?
  {
    SealedFits(b, s, h, payload);
    SealsExactly(b, s, h, payload);
    SealedIsLong(b, s, h, payload);
    HandoffIsGiven(k, c.sourceKey, c, x, kem, p);
  }

  lemma SealedIsLong(b: Crypto, s: Secrets, h: Header, payload: Bytes)
    requires SealBundle(b, s, h, payload).Ok?
    ensures |SealBundle(b, s, h, payload).value| > 0
  {
  }
}
