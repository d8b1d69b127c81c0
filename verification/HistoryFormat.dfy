/**
 The byte format of history transfers: fixed-width numbers, length-prefixed
 strings, the reader that takes them off the input, and the bundle header.
 Every field is proved both ways: what is written is read back, and whatever is
 read was written exactly so.
 */
module HistoryFormat {
  import opened Numerals

  type Bytes = seq<Byte>
  type U64 = n: nat | n < 0x1_0000_0000_0000_0000

  const MAGIC: Bytes := [0x56, 0x48, 0x43, 0x31]
  const BUNDLE_KIND: Byte := 2
  const FRAME_BUCKET := 65536
  const MAX_PADDED_HISTORY := 67108864
  const MAX_CHUNK := 1048576
  const MAX_ID := 128
  const MAX_HEADER := 416

  datatype Error = InvalidInput | Authentication | CryptoFailure

  datatype Result<+T> = Ok(value: T) | Err(error: Error) {
    predicate IsFailure() { Err? }
    function PropagateFailure<U>(): Result<U>
      requires Err?
    {
      Err(error)
    }
    function Extract(): T
      requires Ok?
    {
      value
    }
  }

  /** A value taken off the input, and the input that remains. */
  datatype Parsed<+T> = Parsed(value: T, rest: Bytes)

  // Fields

  function TakeBytes(b: Bytes, len: nat): Result<Parsed<Bytes>> {
    if len <= |b| then Ok(Parsed(b[..len], b[len..])) else Err(InvalidInput)
  }

  function TakeNumber(b: Bytes, len: nat): Result<Parsed<nat>> {
    var p :- TakeBytes(b, len);
    BytesOfValue(p.value);
    Ok(Parsed(Value(p.value, 256), p.rest))
  }

  function TakeLp(b: Bytes, max: nat): Result<Parsed<Bytes>> {
    var n :- TakeNumber(b, 2);
    if n.value > max then Err(InvalidInput) else TakeBytes(n.rest, n.value)
  }

  function Lp(x: Bytes): Bytes { BytesOf(|x|, 2) + x }

  lemma BytesExact(x: Bytes, b: Bytes, t: Bytes)
    ensures TakeBytes(b, |x|) == Ok(Parsed(x, t)) <==> b == x + t
  {
  }

  lemma NumberExact(n: nat, len: nat, b: Bytes, t: Bytes)
    ensures TakeNumber(b, len) == Ok(Parsed(n, t)) <==> n < Full(len) && b == BytesOf(n, len) + t
  {
    if n < Full(len) && b == BytesOf(n, len) + t {
      ValueOfBytes(n, len);
    }
    if len <= |b| {
      BytesOfValue(b[..len]);
    }
  }

  lemma LpExact(x: Bytes, max: nat, b: Bytes, t: Bytes)
    requires max < 65536
    ensures TakeLp(b, max) == Ok(Parsed(x, t)) <==> |x| <= max && b == Lp(x) + t
  {
    assert Full(2) == 65536;
    NumberExact(|x|, 2, b, x + t);
    assert Lp(x) + t == BytesOf(|x|, 2) + (x + t);
    var n := TakeNumber(b, 2);
    if n.Ok? {
      NumberExact(n.value.value, 2, b, n.value.rest);
    }
  }

  // The bundle header, in three parts

  datatype Names = Names(account: Bytes, source: Bytes)
  datatype Counters = Counters(createdAt: U64, snapshot: U64, recovery: Bytes)
  datatype Sizes = Sizes(chunks: nat, padded: nat, version: Byte)

  function EncodeNames(n: Names): Bytes { MAGIC + ([BUNDLE_KIND] + (Lp(n.account) + Lp(n.source))) }

  function EncodeCounters(c: Counters): Bytes { BytesOf(c.createdAt, 8) + (BytesOf(c.snapshot, 8) + Lp(c.recovery)) }

  function EncodeSizes(s: Sizes): Bytes {
    BytesOf(s.chunks, 4) + (BytesOf(s.padded, 8) + ([s.version] + (Lp([]) + Lp([]))))
  }

  function ReadNames(b: Bytes): Result<Parsed<Names>> {
    var magic :- TakeBytes(b, 4);
    if magic.value != MAGIC then Err(InvalidInput)
    else
      var kind :- TakeBytes(magic.rest, 1);
      if kind.value != [BUNDLE_KIND] then Err(InvalidInput)
      else
        var account :- TakeLp(kind.rest, MAX_ID);
        var source :- TakeLp(account.rest, MAX_ID);
        Ok(Parsed(Names(account.value, source.value), source.rest))
  }

  function TakeU64(b: Bytes): Result<Parsed<U64>> {
    var n :- TakeNumber(b, 8);
    NumberExact(n.value, 8, b, n.rest);
    assert Full(8) == 0x1_0000_0000_0000_0000;
    Ok(Parsed(n.value, n.rest))
  }

  function ReadCounters(b: Bytes): Result<Parsed<Counters>> {
    var created :- TakeU64(b);
    var snapshot :- TakeU64(created.rest);
    var recovery :- TakeLp(snapshot.rest, 16);
    if |recovery.value| != 0 && |recovery.value| != 16 then Err(InvalidInput)
    else Ok(Parsed(Counters(created.value, snapshot.value, recovery.value), recovery.rest))
  }

  function ReadSizes(b: Bytes): Result<Parsed<Sizes>> {
    var chunks :- TakeNumber(b, 4);
    var padded :- TakeNumber(chunks.rest, 8);
    var version :- TakeBytes(padded.rest, 1);
    var first :- TakeLp(version.rest, 0);
    var second :- TakeLp(first.rest, 0);
    Ok(Parsed(Sizes(chunks.value, padded.value, version.value[0]), second.rest))
  }

  lemma NamesExact(n: Names, b: Bytes, t: Bytes)
    ensures ReadNames(b) == Ok(Parsed(n, t)) <==>
            |n.account| <= MAX_ID && |n.source| <= MAX_ID && b == EncodeNames(n) + t
  {
    var t3 := Lp(n.source) + t;
    var t2 := Lp(n.account) + t3;
    var t1 := [BUNDLE_KIND] + t2;
    assert EncodeNames(n) + t == MAGIC + t1;
    BytesExact(MAGIC, b, t1);
    BytesExact([BUNDLE_KIND], t1, t2);
    LpExact(n.account, MAX_ID, t2, t3);
    LpExact(n.source, MAX_ID, t3, t);
    if ReadNames(b) == Ok(Parsed(n, t)) {
      var magic := TakeBytes(b, 4).value;
      var kind := TakeBytes(magic.rest, 1).value;
      var account := TakeLp(kind.rest, MAX_ID).value;
      LpExact(n.source, MAX_ID, account.rest, t);
      LpExact(n.account, MAX_ID, kind.rest, account.rest);
      BytesExact([BUNDLE_KIND], magic.rest, kind.rest);
      BytesExact(MAGIC, b, magic.rest);
    }
  }

  lemma U64Exact(n: U64, b: Bytes, t: Bytes)
    ensures TakeU64(b) == Ok(Parsed(n, t)) <==> b == BytesOf(n, 8) + t
  {
    assert Full(8) == 0x1_0000_0000_0000_0000;
    NumberExact(n, 8, b, t);
  }

  lemma CountersExact(c: Counters, b: Bytes, t: Bytes)
    ensures ReadCounters(b) == Ok(Parsed(c, t)) <==>
            (|c.recovery| == 0 || |c.recovery| == 16) && b == EncodeCounters(c) + t
  {
    var t2 := Lp(c.recovery) + t;
    var t1 := BytesOf(c.snapshot, 8) + t2;
    assert EncodeCounters(c) + t == BytesOf(c.createdAt, 8) + t1;
    U64Exact(c.createdAt, b, t1);
    U64Exact(c.snapshot, t1, t2);
    LpExact(c.recovery, 16, t2, t);
    if ReadCounters(b) == Ok(Parsed(c, t)) {
      var created := TakeU64(b).value;
      var snapshot := TakeU64(created.rest).value;
      LpExact(c.recovery, 16, snapshot.rest, t);
      U64Exact(c.snapshot, created.rest, snapshot.rest);
      U64Exact(c.createdAt, b, created.rest);
    }
  }

  lemma SizesExact(s: Sizes, b: Bytes, t: Bytes)
    ensures ReadSizes(b) == Ok(Parsed(s, t)) <==> s.chunks < Full(4) && s.padded < Full(8) && b == EncodeSizes(s) + t
  {
    var t4 := Lp([]) + t;
    var t3 := Lp([]) + t4;
    var t2 := [s.version] + t3;
    var t1 := BytesOf(s.padded, 8) + t2;
    assert EncodeSizes(s) + t == BytesOf(s.chunks, 4) + t1;
    NumberExact(s.chunks, 4, b, t1);
    NumberExact(s.padded, 8, t1, t2);
    BytesExact([s.version], t2, t3);
    LpExact([], 0, t3, t4);
    LpExact([], 0, t4, t);
    if ReadSizes(b) == Ok(Parsed(s, t)) {
      var chunks := TakeNumber(b, 4).value;
      var padded := TakeNumber(chunks.rest, 8).value;
      var version := TakeBytes(padded.rest, 1).value;
      var first := TakeLp(version.rest, 0).value;
      LpExact([], 0, first.rest, t);
      LpExact([], 0, version.rest, first.rest);
      BytesExact([s.version], padded.rest, version.rest);
      NumberExact(s.padded, 8, chunks.rest, padded.rest);
      NumberExact(s.chunks, 4, b, chunks.rest);
    }
  }

  // The whole header

  datatype Header = Header(names: Names, createdAt: U64, snapshot: U64, recovery: Bytes, version: Byte)

  predicate ValidId(id: Bytes) { 0 < |id| <= MAX_ID }

  predicate ValidHeader(h: Header) {
    ValidId(h.names.account) && ValidId(h.names.source) && h.createdAt != 0 && h.snapshot != 0 && h.version != 0
  }

  /** The recovery key id is absent or 16 bytes: a type in the original. */
  predicate Typed(h: Header) { |h.recovery| == 0 || |h.recovery| == 16 }

  predicate ValidPadding(padded: nat) { 0 < padded <= MAX_PADDED_HISTORY && padded % FRAME_BUCKET == 0 }

  function ChunkCount(padded: nat): nat { (padded + MAX_CHUNK - 1) / MAX_CHUNK }

  function HeaderBytes(h: Header, padded: nat): Bytes {
    EncodeNames(h.names)
    + (EncodeCounters(Counters(h.createdAt, h.snapshot, h.recovery))
       + EncodeSizes(Sizes(ChunkCount(padded), padded, h.version)))
  }

  function EncodeHeader(h: Header, padded: nat): Result<Bytes> {
    if !ValidHeader(h) || !ValidPadding(padded) then Err(InvalidInput) else Ok(HeaderBytes(h, padded))
  }

  datatype Opening = Opening(header: Header, padded: nat, chunks: nat)

  function ReadHeader(b: Bytes): Result<Parsed<Opening>> {
    var names :- ReadNames(b);
    var counters :- ReadCounters(names.rest);
    var sizes :- ReadSizes(counters.rest);
    var header := Header(names.value, counters.value.createdAt, counters.value.snapshot, counters.value.recovery,
                         sizes.value.version);
    if !ValidHeader(header) || !ValidPadding(sizes.value.padded) || sizes.value.chunks != ChunkCount(sizes.value.padded)
       || |b| - |sizes.rest| > MAX_HEADER
    then Err(InvalidInput)
    else Ok(Parsed(Opening(header, sizes.value.padded, sizes.value.chunks), sizes.rest))
  }

  lemma HeaderLength(h: Header, padded: nat)
    requires ValidHeader(h) && Typed(h)
    ensures |HeaderBytes(h, padded)| <= 316
  {
  }

  lemma PaddingFits(padded: nat)
    requires ValidPadding(padded)
    ensures ChunkCount(padded) <= 64 && ChunkCount(padded) < Full(4) && padded < Full(8)
  {
  }

  lemma Join(x: Bytes, y: Bytes, z: Bytes, t: Bytes)
    ensures (x + (y + z)) + t == x + (y + (z + t))
  {
  }

  lemma HeaderReads(h: Header, padded: nat, t: Bytes)
    requires Typed(h) && ValidHeader(h) && ValidPadding(padded)
    ensures ReadHeader(HeaderBytes(h, padded) + t) == Ok(Parsed(Opening(h, padded, ChunkCount(padded)), t))
  {
    var c, s := Counters(h.createdAt, h.snapshot, h.recovery), Sizes(ChunkCount(padded), padded, h.version);
    var x, y, z := EncodeNames(h.names), EncodeCounters(c), EncodeSizes(s);
    Join(x, y, z, t);
    assert ReadNames(x + (y + (z + t))) == Ok(Parsed(h.names, y + (z + t))) by {
      NamesExact(h.names, x + (y + (z + t)), y + (z + t));
    }
    assert ReadCounters(y + (z + t)) == Ok(Parsed(c, z + t)) by {
      CountersExact(c, y + (z + t), z + t);
    }
    assert ReadSizes(z + t) == Ok(Parsed(s, t)) by {
      PaddingFits(padded);
      SizesExact(s, z + t, t);
    }
    HeaderLength(h, padded);
  }

  lemma HeaderWrote(b: Bytes)
    requires ReadHeader(b).Ok?
    ensures var p := ReadHeader(b).value;
      && Typed(p.value.header) && ValidHeader(p.value.header) && ValidPadding(p.value.padded)
      && p.value.chunks == ChunkCount(p.value.padded)
      && b == HeaderBytes(p.value.header, p.value.padded) + p.rest
  {
    var names := ReadNames(b).value;
    var counters := ReadCounters(names.rest).value;
    var sizes := ReadSizes(counters.rest).value;
    assert b == EncodeNames(names.value) + names.rest by {
      NamesExact(names.value, b, names.rest);
    }
    var recovery := counters.value.recovery;
    assert names.rest == EncodeCounters(counters.value) + counters.rest && (|recovery| == 0 || |recovery| == 16) by {
      CountersExact(counters.value, names.rest, counters.rest);
    }
    assert counters.rest == EncodeSizes(sizes.value) + sizes.rest by {
      SizesExact(sizes.value, counters.rest, sizes.rest);
    }
    Join(EncodeNames(names.value), EncodeCounters(counters.value), EncodeSizes(sizes.value), sizes.rest);
  }

  /** A header is read exactly from its own encoding, and from nothing else. */
  lemma HeaderExact(h: Header, padded: nat, b: Bytes, t: Bytes)
    ensures ReadHeader(b) == Ok(Parsed(Opening(h, padded, ChunkCount(padded)), t)) <==>
            Typed(h) && EncodeHeader(h, padded).Ok? && b == EncodeHeader(h, padded).value + t
  {
    if Typed(h) && ValidHeader(h) && ValidPadding(padded) {
      HeaderReads(h, padded, t);
    }
    if ReadHeader(b).Ok? {
      HeaderWrote(b);
    }
  }

  // The reader

  /** A read gave what the format says, and left the reader at what remains. */
  predicate Took<T(==)>(p: Result<Parsed<T>>, r: Result<T>, rest: Bytes) {
    if p.Ok? then r == Ok(p.value.value) && rest == p.value.rest else r == Err(p.error)
  }

  class Reader {
    const bytes: Bytes
    var offset: nat

    constructor (bytes: Bytes)
      ensures this.bytes == bytes && offset == 0 && Valid() && Rest() == bytes
    {
      this.bytes, offset := bytes, 0;
    }

    predicate Valid()
      reads this
    {
      offset <= |bytes|
    }

    function Rest(): Bytes
      requires Valid()
      reads this
    {
      bytes[offset..]
    }

    method Take(len: nat) returns (r: Result<Bytes>)
      requires Valid()
      modifies this
      ensures Valid() && Took(TakeBytes(old(Rest()), len), r, Rest())
    {
      if offset + len > |bytes| {
        return Err(InvalidInput);
      }
      var taken := bytes[offset..offset + len];
      assert taken == Rest()[..len] && bytes[offset + len..] == Rest()[len..];
      offset := offset + len;
      r := Ok(taken);
    }

    method Number(len: nat) returns (r: Result<nat>)
      requires Valid()
      modifies this
      ensures Valid() && Took(TakeNumber(old(Rest()), len), r, Rest())
    {
      var b :- Take(len);
      BytesOfValue(b);
      r := Ok(Value(b, 256));
    }

    method Number64() returns (r: Result<U64>)
      requires Valid()
      modifies this
      ensures Valid() && Took(TakeU64(old(Rest())), r, Rest())
    {
      ghost var b := Rest();
      var n :- Number(8);
      NumberExact(n, 8, b, Rest());
      assert Full(8) == 0x1_0000_0000_0000_0000;
      r := Ok(n);
    }

    method LengthPrefixed(max: nat) returns (r: Result<Bytes>)
      requires Valid()
      modifies this
      ensures Valid() && Took(TakeLp(old(Rest()), max), r, Rest())
    {
      var n :- Number(2);
      if n > max {
        return Err(InvalidInput);
      }
      r := Take(n);
    }

    method NamePart() returns (r: Result<Names>)
      requires Valid()
      modifies this
      ensures Valid() && Took(ReadNames(old(Rest())), r, Rest())
    {
      var magic :- Take(4);
      if magic != MAGIC {
        return Err(InvalidInput);
      }
      var kind :- Take(1);
      if kind != [BUNDLE_KIND] {
        return Err(InvalidInput);
      }
      var account :- LengthPrefixed(MAX_ID);
      var source :- LengthPrefixed(MAX_ID);
      r := Ok(Names(account, source));
    }

    method CounterPart() returns (r: Result<Counters>)
      requires Valid()
      modifies this
      ensures Valid() && Took(ReadCounters(old(Rest())), r, Rest())
    {
      var created :- Number64();
      var snapshot :- Number64();
      var recovery :- LengthPrefixed(16);
      if |recovery| != 0 && |recovery| != 16 {
        return Err(InvalidInput);
      }
      r := Ok(Counters(created, snapshot, recovery));
    }

    method SizePart() returns (r: Result<Sizes>)
      requires Valid()
      modifies this
      ensures Valid() && Took(ReadSizes(old(Rest())), r, Rest())
    {
      var chunks :- Number(4);
      var padded :- Number(8);
      var version :- Take(1);
      var first :- LengthPrefixed(0);
      var second :- LengthPrefixed(0);
      r := Ok(Sizes(chunks, padded, version[0]));
    }

    method HeaderPart() returns (r: Result<Opening>)
      requires Valid() && offset == 0
      modifies this
      ensures Valid() && Took(ReadHeader(old(Rest())), r, Rest())
    {
      var names :- NamePart();
      var counters :- CounterPart();
      var sizes :- SizePart();
      var header := Header(names, counters.createdAt, counters.snapshot, counters.recovery, sizes.version);
      if !ValidHeader(header) || !ValidPadding(sizes.padded) || sizes.chunks != ChunkCount(sizes.padded)
         || offset > MAX_HEADER {
        return Err(InvalidInput);
      }
      r := Ok(Opening(header, sizes.padded, sizes.chunks));
    }
  }
}
