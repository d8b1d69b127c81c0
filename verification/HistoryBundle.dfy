/**
 Sealing and opening a history bundle: the payload is framed, padded to a
 bucket, cut into chunks, and each chunk encrypted under the header's hash.
 Encryption is a parameter that opens exactly what it sealed, and hashing a
 parameter about which nothing but the length is assumed.
 */
module HistoryBundle {
  import opened Numerals
  import opened HistoryFormat

  const MAX_CIPHERTEXT := MAX_PADDED_HISTORY + 64 * 20 + MAX_HEADER

  /** "veritra-history-v1" */
  const BUNDLE_CONTEXT: Bytes := [118, 101, 114, 105, 116, 114, 97, 45, 104, 105, 115, 116, 111, 114, 121, 45, 118, 49]

  datatype Option<+T> = None | Some(value: T)

  datatype Secrets = Secrets(key: Bytes, noncePrefix: Bytes)

  datatype Crypto = Crypto(sha: Bytes -> Bytes,
                           encrypt: (Secrets, nat, Bytes, Bytes) -> Bytes,
                           decrypt: (Secrets, nat, Bytes, Bytes) -> Option<Bytes>)
  {
    /** Decryption succeeds exactly on what encryption made, 16 bytes longer. */
    ghost predicate Lawful() {
      && (forall s, i, c, m :: |encrypt(s, i, c, m)| == |m| + 16)
      && (forall s, i, c, m, x :: decrypt(s, i, c, x) == Some(m) <==> x == encrypt(s, i, c, m))
    }
  }

  // Chunks

  function Span(left: nat): nat { if left < MAX_CHUNK then left else MAX_CHUNK }

  function SealChunks(c: Crypto, s: Secrets, context: Bytes, frame: Bytes, index: nat): Bytes
    decreases |frame|
  {
    if frame == [] then []
    else
      var n := Span(|frame|);
      var x := c.encrypt(s, index, context, frame[..n]);
      BytesOf(|x|, 4) + (x + SealChunks(c, s, context, frame[n..], index + 1))
  }

  function OpenChunks(c: Crypto, s: Secrets, context: Bytes, b: Bytes, index: nat, left: nat): Result<Parsed<Bytes>>
    decreases left
  {
    if left == 0 then Ok(Parsed([], b))
    else
      var n := Span(left);
      var length :- TakeNumber(b, 4);
      if length.value != n + 16 then Err(InvalidInput)
      else
        var x :- TakeBytes(length.rest, length.value);
        var m := c.decrypt(s, index, context, x.value);
        if m.None? then Err(Authentication)
        else
          var more :- OpenChunks(c, s, context, x.rest, index + 1, left - n);
          Ok(Parsed(m.value + more.value, more.rest))
  }

  lemma OneChunk(c: Crypto, s: Secrets, context: Bytes, index: nat, m: Bytes, b: Bytes, t: Bytes)
    requires c.Lawful() && |m| <= MAX_CHUNK
    ensures var x := c.encrypt(s, index, context, m);
      && |x| == |m| + 16
      && (b == BytesOf(|x|, 4) + (x + t) <==>
          && TakeNumber(b, 4) == Ok(Parsed(|m| + 16, x + t))
          && TakeBytes(x + t, |m| + 16) == Ok(Parsed(x, t))
          && c.decrypt(s, index, context, x) == Some(m))
  {
    var x := c.encrypt(s, index, context, m);
    assert Full(4) == 0x1_0000_0000;
    NumberExact(|x|, 4, b, x + t);
    BytesExact(x, x + t, t);
  }

  lemma {:induction false} OpensSealed(c: Crypto, s: Secrets, context: Bytes, frame: Bytes, index: nat, t: Bytes)
    requires c.Lawful()
    ensures OpenChunks(c, s, context, SealChunks(c, s, context, frame, index) + t, index, |frame|) == Ok(Parsed(frame, t))
    decreases |frame|
  {
    if frame == [] {
      assert [] + t == t;
    } else {
      var n := Span(|frame|);
      var x := c.encrypt(s, index, context, frame[..n]);
      var rest := SealChunks(c, s, context, frame[n..], index + 1) + t;
      assert SealChunks(c, s, context, frame, index) + t == BytesOf(|x|, 4) + (x + rest);
      OneChunk(c, s, context, index, frame[..n], BytesOf(|x|, 4) + (x + rest), rest);
      OpensSealed(c, s, context, frame[n..], index + 1, t);
      assert frame[..n] + frame[n..] == frame && |frame[n..]| == |frame| - n;
    }
  }

  lemma Unopened(c: Crypto, s: Secrets, context: Bytes, b: Bytes, index: nat, left: nat)
    returns (m: Bytes, more: Parsed<Bytes>, rest: Bytes)
    requires c.Lawful() && left > 0 && OpenChunks(c, s, context, b, index, left).Ok?
    ensures |m| == Span(left) && b == BytesOf(|m| + 16, 4) + (c.encrypt(s, index, context, m) + rest)
    ensures OpenChunks(c, s, context, rest, index + 1, left - Span(left)) == Ok(more)
    ensures OpenChunks(c, s, context, b, index, left) == Ok(Parsed(m + more.value, more.rest))
  {
    var length := TakeNumber(b, 4).value;
    var x := TakeBytes(length.rest, length.value).value;
    m := c.decrypt(s, index, context, x.value).value;
    assert x.value == c.encrypt(s, index, context, m);
    rest := x.rest;
    more := OpenChunks(c, s, context, rest, index + 1, left - Span(left)).value;
    NumberExact(length.value, 4, b, length.rest);
    BytesExact(x.value, length.rest, rest);
  }

  lemma {:induction false} SealsOpened(c: Crypto, s: Secrets, context: Bytes, b: Bytes, index: nat, left: nat)
    requires c.Lawful() && OpenChunks(c, s, context, b, index, left).Ok?
    ensures var p := OpenChunks(c, s, context, b, index, left).value;
      |p.value| == left && b == SealChunks(c, s, context, p.value, index) + p.rest
    decreases left
  {
    if left != 0 {
      var m, more, rest := Unopened(c, s, context, b, index, left);
      SealsOpened(c, s, context, rest, index + 1, left - Span(left));
      var frame := m + more.value;
      assert frame[..|m|] == m && frame[|m|..] == more.value;
      var x := c.encrypt(s, index, context, m);
      var tail := SealChunks(c, s, context, more.value, index + 1);
      assert SealChunks(c, s, context, frame, index) == BytesOf(|x|, 4) + (x + tail);
      Join(BytesOf(|x|, 4), x, tail, more.rest);
    }
  }

  // The frame

  function PaddedSize(payload: nat): Result<nat> {
    var rounded := (payload + 8 + FRAME_BUCKET - 1) / FRAME_BUCKET * FRAME_BUCKET;
    if rounded > MAX_PADDED_HISTORY then Err(InvalidInput) else Ok(rounded)
  }

  function Frame(payload: Bytes, padded: nat): Bytes
    requires |payload| + 8 <= padded
  {
    BytesOf(|payload|, 8) + (payload + seq(padded - 8 - |payload|, _ => 0))
  }

  predicate AllZero(b: Bytes) { forall i | 0 <= i < |b| :: b[i] == 0 }

  function Unframe(frame: Bytes): Result<Bytes> {
    var n :- TakeNumber(frame, 8);
    if n.value + 8 > |frame| || PaddedSize(n.value) != Ok(|frame|) || !AllZero(frame[n.value + 8..]) then Err(InvalidInput)
    else Ok(frame[8..n.value + 8])
  }

  lemma PaddingHolds(n: nat, padded: nat)
    requires PaddedSize(n) == Ok(padded)
    ensures n + 8 <= padded < n + 8 + FRAME_BUCKET && ValidPadding(padded) && n < Full(8)
  {
    var k := (n + 8 + FRAME_BUCKET - 1) / FRAME_BUCKET;
    assert padded == k * FRAME_BUCKET && padded % FRAME_BUCKET == 0;
    assert Full(8) == 0x1_0000_0000_0000_0000;
  }

  lemma Unframes(payload: Bytes, padded: nat)
    requires PaddedSize(|payload|) == Ok(padded) && |payload| + 8 <= padded
    ensures Unframe(Frame(payload, padded)) == Ok(payload)
  {
    PaddingHolds(|payload|, padded);
    var zeros: Bytes := seq(padded - 8 - |payload|, _ => 0);
    var frame := Frame(payload, padded);
    NumberExact(|payload|, 8, frame, payload + zeros);
    assert frame[|payload| + 8..] == zeros;
    assert frame[8..|payload| + 8] == payload;
  }

  lemma Framed(frame: Bytes)
    requires Unframe(frame).Ok?
    ensures var payload := Unframe(frame).value;
      PaddedSize(|payload|) == Ok(|frame|) && |payload| + 8 <= |frame| && frame == Frame(payload, |frame|)
  {
    var n := TakeNumber(frame, 8).value;
    NumberExact(n.value, 8, frame, n.rest);
    var payload := Unframe(frame).value;
    var zeros: Bytes := seq(|frame| - 8 - |payload|, _ => 0);
    assert frame[n.value + 8..] == zeros;
    assert frame == frame[..8] + (frame[8..n.value + 8] + frame[n.value + 8..]);
    assert frame[..8] == BytesOf(n.value, 8);
  }

  // The bundle

  function ChunkContext(c: Crypto, header: Bytes): Bytes { BUNDLE_CONTEXT + c.sha(header) }

  function SealBundle(c: Crypto, s: Secrets, h: Header, payload: Bytes): Result<Bytes> {
    var padded :- PaddedSize(|payload|);
    var header :- EncodeHeader(h, padded);
    PaddingHolds(|payload|, padded);
    Ok(header + SealChunks(c, s, ChunkContext(c, header), Frame(payload, padded), 0))
  }

  datatype Expected = Expected(names: Names, snapshot: U64, headerSha: Bytes, ciphertextSha: Bytes, size: nat,
                               version: Byte)

  datatype Opened = Opened(header: Header, payload: Bytes)

  function OpenBundle(c: Crypto, s: Secrets, ciphertext: Bytes, expected: Expected): Result<Opened> {
    if |ciphertext| > MAX_CIPHERTEXT || !ValidId(expected.names.account) || !ValidId(expected.names.source)
    then Err(InvalidInput)
    else if |ciphertext| != expected.size || c.sha(ciphertext) != expected.ciphertextSha then Err(Authentication)
    else
      var p :- ReadHeader(ciphertext);
      HeaderWrote(ciphertext);
      var h, header := p.value.header, ciphertext[..|ciphertext| - |p.rest|];
      if h.names != expected.names || h.snapshot != expected.snapshot || h.version != expected.version
         || c.sha(header) != expected.headerSha
      then Err(Authentication)
      else
        var frame :- OpenChunks(c, s, ChunkContext(c, header), p.rest, 0, p.value.padded);
        if frame.rest != [] || |frame.value| != p.value.padded then Err(InvalidInput)
        else
          var payload :- Unframe(frame.value);
          Ok(Opened(h, payload))
  }

  /** The caller expects this bundle of this header. */
  predicate Expects(c: Crypto, expected: Expected, h: Header, padded: nat, ciphertext: Bytes) {
    && expected.names == h.names
    && expected.snapshot == h.snapshot
    && expected.version == h.version
    && expected.size == |ciphertext|
    && expected.ciphertextSha == c.sha(ciphertext)
    && expected.headerSha == c.sha(HeaderBytes(h, padded))
  }

  lemma {:induction false} ChunksLength(c: Crypto, s: Secrets, context: Bytes, frame: Bytes, index: nat)
    requires c.Lawful()
    ensures |SealChunks(c, s, context, frame, index)| == |frame| + 20 * ChunkCount(|frame|)
    decreases |frame|
  {
    if frame != [] {
      var n := Span(|frame|);
      ChunksLength(c, s, context, frame[n..], index + 1);
      assert ChunkCount(|frame|) == ChunkCount(|frame| - n) + 1;
    }
  }

  /** No sealed bundle exceeds what opening accepts. */
  lemma SealedFits(c: Crypto, s: Secrets, h: Header, payload: Bytes)
    requires c.Lawful() && Typed(h) && SealBundle(c, s, h, payload).Ok?
    ensures |SealBundle(c, s, h, payload).value| <= MAX_CIPHERTEXT
  {
    var padded := PaddedSize(|payload|).value;
    PaddingHolds(|payload|, padded);
    PaddingFits(padded);
    HeaderLength(h, padded);
    ChunksLength(c, s, ChunkContext(c, HeaderBytes(h, padded)), Frame(payload, padded), 0);
  }

  /** A bundle is sealed exactly for ids of 1 to 128 bytes, counters and a version
      that are not zero, and a payload that leaves room for its length. */
  lemma SealsExactly(c: Crypto, s: Secrets, h: Header, payload: Bytes)
    ensures SealBundle(c, s, h, payload).Ok? <==>
      && 1 <= |h.names.account| <= 128 && 1 <= |h.names.source| <= 128
      && h.createdAt > 0 && h.snapshot > 0 && h.version != 0
      && |payload| <= 64 * 1024 * 1024 - 8
  {
    if PaddedSize(|payload|).Ok? {
      PaddingHolds(|payload|, PaddedSize(|payload|).value);
    }
  }

  /** Sealing then opening gives back the header and the payload. */
  lemma OpensWhatWasSealed(c: Crypto, s: Secrets, h: Header, payload: Bytes, expected: Expected)
    requires c.Lawful() && Typed(h) && SealBundle(c, s, h, payload).Ok?
    requires Expects(c, expected, h, PaddedSize(|payload|).value, SealBundle(c, s, h, payload).value)
    ensures OpenBundle(c, s, SealBundle(c, s, h, payload).value, expected) == Ok(Opened(h, payload))
  {
    var padded, ciphertext := PaddedSize(|payload|).value, SealBundle(c, s, h, payload).value;
    var header := HeaderBytes(h, padded);
    var frame := Frame(payload, padded);
    var chunks := SealChunks(c, s, ChunkContext(c, header), frame, 0);
    SealedFits(c, s, h, payload);
    assert ReadHeader(ciphertext) == Ok(Parsed(Opening(h, padded, ChunkCount(padded)), chunks)) by {
      HeaderReads(h, padded, chunks);
    }
    assert ciphertext[..|ciphertext| - |chunks|] == header;
    assert OpenChunks(c, s, ChunkContext(c, header), chunks, 0, padded) == Ok(Parsed(frame, [])) by {
      assert chunks + [] == chunks;
      OpensSealed(c, s, ChunkContext(c, header), frame, 0, []);
    }
    Unframes(payload, padded);
  }

  /** Whatever opens is, byte for byte, the sealing of what it opened to. */
  lemma SealedWhateverOpens(c: Crypto, s: Secrets, ciphertext: Bytes, expected: Expected)
    requires c.Lawful() && OpenBundle(c, s, ciphertext, expected).Ok?
    ensures var o := OpenBundle(c, s, ciphertext, expected).value;
      && Typed(o.header) && PaddedSize(|o.payload|).Ok?
      && SealBundle(c, s, o.header, o.payload) == Ok(ciphertext)
      && Expects(c, expected, o.header, PaddedSize(|o.payload|).value, ciphertext)
  {
    HeaderWrote(ciphertext);
    var p := ReadHeader(ciphertext).value;
    var header := HeaderBytes(p.value.header, p.value.padded);
    assert ciphertext[..|ciphertext| - |p.rest|] == header;
    var frame := OpenChunks(c, s, ChunkContext(c, header), p.rest, 0, p.value.padded).value;
    SealsOpened(c, s, ChunkContext(c, header), p.rest, 0, p.value.padded);
    Framed(frame.value);
    assert p.rest == SealChunks(c, s, ChunkContext(c, header), frame.value, 0);
  }

  /** Opening succeeds exactly on the expected sealing of its result. */
  lemma OpensExactly(c: Crypto, s: Secrets, ciphertext: Bytes, expected: Expected, h: Header, payload: Bytes)
    requires c.Lawful()
    ensures OpenBundle(c, s, ciphertext, expected) == Ok(Opened(h, payload)) <==>
            && Typed(h) && SealBundle(c, s, h, payload) == Ok(ciphertext)
            && Expects(c, expected, h, PaddedSize(|payload|).value, ciphertext)
  {
    if OpenBundle(c, s, ciphertext, expected).Ok? {
      SealedWhateverOpens(c, s, ciphertext, expected);
    }
    if Typed(h) && SealBundle(c, s, h, payload) == Ok(ciphertext)
       && Expects(c, expected, h, PaddedSize(|payload|).value, ciphertext) {
      OpensWhatWasSealed(c, s, h, payload, expected);
    }
  }

  // The two loops

  method SealWithSecrets(c: Crypto, s: Secrets, header: Bytes, payload: Bytes, padded: nat) returns (ciphertext: Bytes)
    requires |payload| + 8 <= padded
    ensures ciphertext == header + SealChunks(c, s, ChunkContext(c, header), Frame(payload, padded), 0)
  {
    var frame := Frame(payload, padded);
    var context := ChunkContext(c, header);
    ciphertext := header;
    var rest, index := frame, 0;
    ghost var goal := header + SealChunks(c, s, context, frame, 0);
    while rest != []
      invariant ciphertext + SealChunks(c, s, context, rest, index) == goal
      decreases |rest|
    {
      var n := Span(|rest|);
      var x := c.encrypt(s, index, context, rest[..n]);
      ghost var more := SealChunks(c, s, context, rest[n..], index + 1);
      assert ciphertext + (BytesOf(|x|, 4) + (x + more)) == ciphertext + BytesOf(|x|, 4) + x + more;
      ciphertext := ciphertext + BytesOf(|x|, 4) + x;
      rest, index := rest[n..], index + 1;
    }
    assert ciphertext + [] == ciphertext;
  }

  method Seal(c: Crypto, s: Secrets, h: Header, payload: Bytes) returns (r: Result<Bytes>)
    ensures r == SealBundle(c, s, h, payload)
  {
    var padded :- PaddedSize(|payload|);
    var header :- EncodeHeader(h, padded);
    PaddingHolds(|payload|, padded);
    var ciphertext := SealWithSecrets(c, s, header, payload, padded);
    r := Ok(ciphertext);
  }

  /** What opening the rest makes of the whole. */
  function Prepend(m: Bytes, p: Result<Parsed<Bytes>>): Result<Parsed<Bytes>> {
    if p.Ok? then Ok(Parsed(m + p.value.value, p.value.rest)) else p
  }

  lemma PrependNothing(p: Result<Parsed<Bytes>>)
    ensures Prepend([], p) == p
  {
    if p.Ok? {
      assert [] + p.value.value == p.value.value;
    }
  }

  lemma PrependTwice(m: Bytes, n: Bytes, p: Result<Parsed<Bytes>>)
    ensures Prepend(m, Prepend(n, p)) == Prepend(m + n, p)
  {
    if p.Ok? {
      assert m + (n + p.value.value) == (m + n) + p.value.value;
    }
  }

  /** One chunk off the reader. */
  method OneMore(c: Crypto, s: Secrets, context: Bytes, reader: Reader, index: nat, left: nat) returns (r: Result<Bytes>)
    requires reader.Valid() && left > 0
    modifies reader
    ensures reader.Valid()
    ensures
      var whole := OpenChunks(c, s, context, old(reader.Rest()), index, left);
      if r.Ok? then whole == Prepend(r.value, OpenChunks(c, s, context, reader.Rest(), index + 1, left - Span(left)))
      else whole == Err(r.error)
  {
    var length :- reader.Number(4);
    if length != Span(left) + 16 {
      return Err(InvalidInput);
    }
    var x :- reader.Take(length);
    var m := c.decrypt(s, index, context, x);
    if m.None? {
      return Err(Authentication);
    }
    r := Ok(m.value);
  }

  method OpenFrame(c: Crypto, s: Secrets, context: Bytes, reader: Reader, padded: nat, chunks: nat)
    returns (r: Result<Bytes>)
    requires reader.Valid() && chunks == ChunkCount(padded)
    modifies reader
    ensures reader.Valid() && Took(OpenChunks(c, s, context, old(reader.Rest()), 0, padded), r, reader.Rest())
  {
    var frame: Bytes := [];
    ghost var whole := OpenChunks(c, s, context, reader.Rest(), 0, padded);
    var left: nat := padded;
    PrependNothing(whole);
    for index := 0 to chunks
      invariant reader.Valid() && chunks - index == ChunkCount(left)
      invariant whole == Prepend(frame, OpenChunks(c, s, context, reader.Rest(), index, left))
    {
      var m :- OneMore(c, s, context, reader, index, left);
      PrependTwice(frame, m, OpenChunks(c, s, context, reader.Rest(), index + 1, left - Span(left)));
      frame := frame + m;
      assert ChunkCount(left - Span(left)) == ChunkCount(left) - 1;
      left := left - Span(left);
    }
    assert left == 0 && frame + [] == frame;
    r := Ok(frame);
  }

  method Open(c: Crypto, s: Secrets, ciphertext: Bytes, expected: Expected) returns (r: Result<Opened>)
    ensures r == OpenBundle(c, s, ciphertext, expected)
  {
    if |ciphertext| > MAX_CIPHERTEXT || !ValidId(expected.names.account) || !ValidId(expected.names.source) {
      return Err(InvalidInput);
    }
    if |ciphertext| != expected.size || c.sha(ciphertext) != expected.ciphertextSha {
      return Err(Authentication);
    }
    var reader := new Reader(ciphertext);
    var p :- reader.HeaderPart();
    HeaderWrote(ciphertext);
    var h, header := p.header, ciphertext[..reader.offset];
    if h.names != expected.names || h.snapshot != expected.snapshot || h.version != expected.version
       || c.sha(header) != expected.headerSha {
      return Err(Authentication);
    }
    var frame :- OpenFrame(c, s, ChunkContext(c, header), reader, p.padded, p.chunks);
    if reader.offset != |reader.bytes| || |frame| != p.padded {
      return Err(InvalidInput);
    }
    var payload :- Unframe(frame);
    r := Ok(Opened(h, payload));
  }
}
