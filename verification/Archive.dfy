/** The archive file: a header, then one record per chunk, and the decoder that reads it back. */
module Archive {
  import opened Wrappers
  import opened Chunks
  import opened HashTables

  const CHECKBIT := 123456
  const TYPE_FINGERPRINT: bv8 := 0
  const TYPE_COMPRESS: bv8 := 1
  const COMPRESS_NONE: bv8 := 2
  const UNCOMPRESS_BOUND := 10_000_000
  const LEN_SIZE := 8

  datatype Record = Data(content: Bytes) | Fingerprint(sha1: Key)

  datatype Failure =
    | NotAnArchive | Incomplete | WrongSumSize | EmptyData | UnknownType | NotUncompressed | TooLarge | NoCounterpart

  // ---------- the library functions ----------

  /** SHA-1 and the compression library: compress and uncompress take the kind of compression. */
  datatype Codec = Codec(digest: Bytes -> Key, compress: (bv8, Bytes) -> Bytes,
                         uncompress: (bv8, Bytes) -> Option<Bytes>)
  {
    // What the library compresses it can uncompress.
    ghost predicate Inverse(kind: bv8) {
      kind != COMPRESS_NONE ==> forall d :: uncompress(kind, compress(kind, d)) == Some(d)
    }

    function Compressed(kind: bv8, d: Bytes): (c: Bytes) {
      if kind == COMPRESS_NONE then d else compress(kind, d)
    }

    /** The decoder offers the library a buffer of fixed size. */
    function Uncompressed(kind: bv8, c: Bytes): (d: Result<Bytes, Failure>) {
      if kind == COMPRESS_NONE then Ok(c) else
        match uncompress(kind, c)
        case None => Err(NotUncompressed)
        case Some(d) => if |d| <= UNCOMPRESS_BOUND then Ok(d) else Err(NotUncompressed)
    }

    /** The chunks the decoder can take: not empty, and not above the buffer the library is given. */
    predicate Decodable(kind: bv8, d: Bytes) {
      |d| > 0 && |Compressed(kind, d)| > 0 && (kind != COMPRESS_NONE ==> |d| <= UNCOMPRESS_BOUND)
    }
  }

  // ---------- integers ----------

  // A size as a 32-bit signed int sees it.
  function AsInt(n: nat): (i: int)
    ensures -0x8000_0000 <= i < 0x8000_0000 && (i - n) % 0x1_0000_0000 == 0
  {
    var m := n % 0x1_0000_0000;
    if m < 0x8000_0000 then m else m - 0x1_0000_0000
  }

  /** An unsigned integer of k bytes, least significant byte first. */
  function LittleEndian(n: nat, k: nat): (b: Bytes)
    ensures |b| == k
  {
    if k == 0 then [] else [ByteOf(n % 256)] + LittleEndian(n / 256, k - 1)
  }

  function FromLittleEndian(b: Bytes): (n: nat) {
    if b == [] then 0 else ValueOf(b[0]) + 256 * FromLittleEndian(b[1..])
  }

  /** Reading back gives the number modulo the width of the field. */
  lemma {:induction false} LittleEndianRoundTrip(n: nat, k: nat)
    requires n < Power256(k)
    ensures FromLittleEndian(LittleEndian(n, k)) == n
  {
    if k > 0 {
      ByteRoundTrip(n % 256);
      LittleEndianRoundTrip(n / 256, k - 1);
      assert LittleEndian(n, k)[1..] == LittleEndian(n / 256, k - 1);
    }
  }

  /** And writing what was read gives the bytes. */
  lemma {:induction false} FromLittleEndianRoundTrip(b: Bytes)
    ensures FromLittleEndian(b) < Power256(|b|) && LittleEndian(FromLittleEndian(b), |b|) == b
  {
    if b != [] {
      FromLittleEndianRoundTrip(b[1..]);
      ValueRoundTrip(b[0]);
      Digits(ValueOf(b[0]), FromLittleEndian(b[1..]));
    }
  }

  lemma Digits(low: nat, high: nat)
    requires low < 256
    ensures (low + 256 * high) % 256 == low && (low + 256 * high) / 256 == high
  {
  }

  // ---------- records as bytes ----------

  /** One record: its type, the length of its content, the content. */
  function WriteFile(r: Record): (b: Bytes)
    ensures |b| > LEN_SIZE
  {
    match r
    case Data(content) => [TYPE_COMPRESS] + LittleEndian(|content|, LEN_SIZE) + content
    case Fingerprint(sha1) => [TYPE_FINGERPRINT] + LittleEndian(SHA1_LEN, LEN_SIZE) + sha1
  }

  function Serialized(rs: seq<Record>): (b: Bytes) {
    if rs == [] then [] else Serialized(rs[..|rs| - 1]) + WriteFile(rs[|rs| - 1])
  }

  function FileHeader(kind: bv8): (b: Bytes) {
    LittleEndian(CHECKBIT, 4) + [kind]
  }

  datatype Parsed = AtEnd | Broken(f: Failure) | One(r: Record, rest: Bytes)

  /** The next record of a file, its end, or what is wrong with it. */
  function ReadChunk(b: Bytes): (p: Parsed)
    ensures p.One? ==> |p.rest| < |b| && p.r != Data([])
  {
    if b == [] then AtEnd
    else if |b| < 1 + LEN_SIZE then Broken(Incomplete)
    else
      var len := FromLittleEndian(b[1..1 + LEN_SIZE]);
      var rest := b[1 + LEN_SIZE..];
      if b[0] == TYPE_FINGERPRINT then
        if len != SHA1_LEN then Broken(WrongSumSize)
        else if |rest| < SHA1_LEN then Broken(Incomplete)
        else One(Fingerprint(rest[..SHA1_LEN]), rest[SHA1_LEN..])
      else if b[0] == TYPE_COMPRESS then
        if len == 0 then Broken(EmptyData)
        else if |rest| < len || AsInt(len) <= 0 then Broken(Incomplete)
        else One(Data(rest[..len]), rest[len..])
      else Broken(UnknownType)
  }

  // Lengths that fit the field and that the reader's int does not take for an error or the end.
  predicate Readable(r: Record) {
    r.Data? ==> |r.content| < Power256(LEN_SIZE) && (r.content != [] ==> AsInt(|r.content|) > 0)
  }

  lemma SmallIsReadable(r: Record)
    requires r.Data? ==> |r.content| < 0x8000_0000
    ensures Readable(r)
  {
    hide Power256;
    Widths();
  }

  function Content(r: Record): (c: Bytes) {
    if r.Data? then r.content else r.sha1
  }

  lemma FieldsOfParts(kind: bv8, len: Bytes, content: Bytes, tail: Bytes)
    ensures var b := [kind] + len + content + tail;
            b[0] == kind && b[1..1 + |len|] == len && b[1 + |len|..] == content + tail
  {
  }

  // The fields of a written record, as the reader cuts them out.
  lemma Fields(r: Record, tail: Bytes)
    requires |Content(r)| < Power256(LEN_SIZE)
    ensures var b := WriteFile(r) + tail;
            && b[0] == (if r.Data? then TYPE_COMPRESS else TYPE_FINGERPRINT)
            && FromLittleEndian(b[1..1 + LEN_SIZE]) == |Content(r)|
            && b[1 + LEN_SIZE..] == Content(r) + tail
  {
    hide LittleEndian, FromLittleEndian, Power256;
    var kind := if r.Data? then TYPE_COMPRESS else TYPE_FINGERPRINT;
    assert WriteFile(r) == [kind] + LittleEndian(|Content(r)|, LEN_SIZE) + Content(r);
    FieldsOfParts(kind, LittleEndian(|Content(r)|, LEN_SIZE), Content(r), tail);
    LittleEndianRoundTrip(|Content(r)|, LEN_SIZE);
  }

  lemma ReadOfWritten(r: Record, tail: Bytes)
    requires Readable(r)
    ensures ReadChunk(WriteFile(r) + tail) == if r == Data([]) then Broken(EmptyData) else One(r, tail)
  {
    hide LittleEndian, FromLittleEndian, Power256, WriteFile;
    Widths();
    Fields(r, tail);
    var rest := Content(r) + tail;
    assert rest[..|Content(r)|] == Content(r) && rest[|Content(r)|..] == tail;
  }

  /** A record is accepted only if the file holds exactly the bytes the encoder writes for it. */
  lemma ReadIsWritten(b: Bytes)
    requires ReadChunk(b).One?
    ensures b == WriteFile(ReadChunk(b).r) + ReadChunk(b).rest
  {
    hide LittleEndian, FromLittleEndian, Power256, Readable;
    var len := FromLittleEndian(b[1..1 + LEN_SIZE]);
    FromLittleEndianRoundTrip(b[1..1 + LEN_SIZE]);
    assert b == [b[0]] + b[1..1 + LEN_SIZE] + b[1 + LEN_SIZE..];
    var rest := b[1 + LEN_SIZE..];
    assert rest == rest[..len] + rest[len..];
  }

  // ---------- decoding ----------

  datatype Decoded = Decoded(known: map<Key, Bytes>, chunks: seq<Bytes>)

  // One turn of the decoder's loop.
  function Take(codec: Codec, kind: bv8, d: Decoded, r: Record): (d': Result<Decoded, Failure>) {
    match r
    case Data(content) =>
      if content == [] then Err(EmptyData) else
      (match codec.Uncompressed(kind, content)
       case Err(f) => Err(f)
       case Ok(u) =>
         if AsInt(|u|) <= 0 then Err(NotUncompressed)
         else if AsInt(|u|) < |u| then Err(TooLarge)
         else Ok(Decoded(d.known[codec.digest(u) := u], d.chunks + [u])))
    case Fingerprint(sha1) =>
      if sha1 in d.known then Ok(d.(chunks := d.chunks + [d.known[sha1]])) else Err(NoCounterpart)
  }

  function TakeAll(codec: Codec, kind: bv8, rs: seq<Record>): (d: Result<Decoded, Failure>) {
    if rs == [] then Ok(Decoded(map[], [])) else
      match TakeAll(codec, kind, rs[..|rs| - 1])
      case Err(f) => Err(f)
      case Ok(d) => Take(codec, kind, d, rs[|rs| - 1])
  }

  // The decoder's loop from a given state on.
  function TakeRest(codec: Codec, kind: bv8, d: Decoded, b: Bytes): (r: Result<seq<Bytes>, Failure>)
    decreases |b|
  {
    match ReadChunk(b)
    case AtEnd => Ok(d.chunks)
    case Broken(f) => Err(f)
    case One(r, rest) =>
      match Take(codec, kind, d, r)
      case Err(f) => Err(f)
      case Ok(d') => TakeRest(codec, kind, d', rest)
  }

  predicate HeaderOk(file: Bytes) {
    |file| >= 5 && FromLittleEndian(file[..4]) == CHECKBIT
  }

  /** What a file decodes to: the chunks in the order of the file. */
  function DecodedFile(codec: Codec, file: Bytes): (r: Result<seq<Bytes>, Failure>) {
    if HeaderOk(file) then TakeRest(codec, file[4], Decoded(map[], []), file[5..]) else Err(NotAnArchive)
  }

  /** One record: uncompress and remember a chunk, or look it up. */
  method Process(codec: Codec, kind: bv8, r: Record, cache: HashTable<Bytes>, ghost output: seq<Bytes>)
    returns (entry: Result<Bytes, Failure>)
    requires cache.Valid() && r != Data([])
    modifies cache, cache.table
    ensures cache.Valid() && cache.table == old(cache.table)
    ensures match Take(codec, kind, Decoded(old(cache.Contents), output), r)
            case Err(f) => entry == Err(f)
            case Ok(d) => entry.Ok? && d == Decoded(cache.Contents, output + [entry.value])
  {
    match r
    case Data(content) =>
      var u := codec.Uncompressed(kind, content);
      if u.Err? {
        return Err(u.error);
      }
      if AsInt(|u.value|) <= 0 {
        return Err(NotUncompressed);
      }
      var sha1 := codec.digest(u.value);
      cache.Insert(sha1, u.value);
      if AsInt(|u.value|) < |u.value| {
        return Err(TooLarge);
      }
      return u;
    case Fingerprint(sha1) =>
      var known := cache.Search(sha1);
      return match known case Some(d) => Ok(d) case None => Err(NoCounterpart);
  }

  /** The decoder: it follows the header's kind of compression, keeps every chunk it uncompresses in
      a hash table and looks the duplicates up. */
  method Decode(codec: Codec, file: Bytes) returns (r: Result<seq<Bytes>, Failure>)
    ensures r == DecodedFile(codec, file)
  {
    var size := TableSize(65536);
    var cache := new HashTable<Bytes>(size.value);
    if !HeaderOk(file) {
      return Err(NotAnArchive);
    }
    r := DecodeRecords(codec, file[4], file[5..], cache);
  }

  method DecodeRecords(codec: Codec, kind: bv8, file: Bytes, cache: HashTable<Bytes>)
    returns (r: Result<seq<Bytes>, Failure>)
    requires cache.Valid()
    modifies cache, cache.table
    ensures r == TakeRest(codec, kind, Decoded(old(cache.Contents), []), file)
  {
    hide ReadChunk, Take, FromLittleEndian;
    var output: seq<Bytes> := [];
    var seek := 0;
    assert file[seek..] == file;
    while true
      invariant cache.Valid() && cache.table == old(cache.table) && seek <= |file|
      invariant TakeRest(codec, kind, Decoded(cache.Contents, output), file[seek..])
                == TakeRest(codec, kind, Decoded(old(cache.Contents), []), file)
      decreases |file| - seek
    {
      var chunk := ReadChunk(file[seek..]);
      if chunk.AtEnd? {
        return Ok(output);
      }
      if chunk.Broken? {
        return Err(chunk.f);
      }
      RestOfFile(file, seek);
      seek := |file| - |chunk.rest|;
      var entry := Process(codec, kind, chunk.r, cache, output);
      if entry.Err? {
        return Err(entry.error);
      }
      output := output + [entry.value];
    }
  }

  lemma RestOfFile(file: Bytes, seek: nat)
    requires seek <= |file| && ReadChunk(file[seek..]).One?
    ensures var rest := ReadChunk(file[seek..]).rest;
            seek < |file| - |rest| <= |file| && rest == file[|file| - |rest|..]
  {
    hide FromLittleEndian;
  }

  // ---------- reading what was written ----------

  lemma {:induction false} TakeRestOfSerialized(codec: Codec, kind: bv8, rs: seq<Record>, k: nat, d: Decoded)
    requires k <= |rs| && TakeAll(codec, kind, rs[..k]) == Ok(d)
    requires forall i :: k <= i < |rs| ==> Readable(rs[i])
    ensures TakeRest(codec, kind, d, SerializedFrom(rs, k)) ==
            match TakeAll(codec, kind, rs) case Ok(e) => Ok(e.chunks) case Err(f) => Err(f)
    decreases |rs| - k
  {
    if k == |rs| {
      assert rs[..k] == rs;
    } else {
      ReadOfWritten(rs[k], SerializedFrom(rs, k + 1));
      assert rs[..k + 1][..k] == rs[..k];
      match Take(codec, kind, d, rs[k])
      case Ok(e) => TakeRestOfSerialized(codec, kind, rs, k + 1, e);
      case Err(f) => FailureStays(codec, kind, rs, k + 1, f);
    }
  }

  function SerializedFrom(rs: seq<Record>, k: nat): (b: Bytes)
    requires k <= |rs|
    decreases |rs| - k
  {
    if k == |rs| then [] else WriteFile(rs[k]) + SerializedFrom(rs, k + 1)
  }

  lemma Associative(a: Bytes, b: Bytes, c: Bytes)
    ensures (a + b) + c == a + (b + c)
  {
  }

  lemma {:induction false} SerializedFromIsRest(rs: seq<Record>, k: nat)
    requires k <= |rs|
    ensures Serialized(rs) == Serialized(rs[..k]) + SerializedFrom(rs, k)
    decreases |rs| - k
  {
    hide WriteFile;
    if k == |rs| {
      assert rs[..k] == rs;
    } else {
      SerializedFromIsRest(rs, k + 1);
      assert rs[..k + 1][..k] == rs[..k];
      Associative(Serialized(rs[..k]), WriteFile(rs[k]), SerializedFrom(rs, k + 1));
    }
  }

  lemma {:induction false} FailureStays(codec: Codec, kind: bv8, rs: seq<Record>, k: nat, f: Failure)
    requires k <= |rs| && TakeAll(codec, kind, rs[..k]) == Err(f)
    ensures TakeAll(codec, kind, rs) == Err(f)
    decreases |rs| - k
  {
    if k == |rs| {
      assert rs[..k] == rs;
    } else {
      assert rs[..k + 1][..k] == rs[..k];
      FailureStays(codec, kind, rs, k + 1, f);
    }
  }

  lemma HeaderIsRead(kind: bv8, b: Bytes)
    ensures var file := FileHeader(kind) + b; HeaderOk(file) && file[4] == kind && file[5..] == b
  {
    hide LittleEndian, FromLittleEndian, Power256;
    var file := FileHeader(kind) + b;
    assert file[..4] == LittleEndian(CHECKBIT, 4);
    Widths();
    LittleEndianRoundTrip(CHECKBIT, 4);
  }

  /** Decoding a written file is taking its records one by one. */
  lemma DecodedOfSerialized(codec: Codec, kind: bv8, rs: seq<Record>)
    requires forall i :: 0 <= i < |rs| ==> Readable(rs[i])
    ensures DecodedFile(codec, FileHeader(kind) + Serialized(rs)) ==
            match TakeAll(codec, kind, rs) case Ok(d) => Ok(d.chunks) case Err(f) => Err(f)
  {
    hide LittleEndian, FromLittleEndian, TakeRest, Power256;
    HeaderIsRead(kind, Serialized(rs));
    assert rs[..0] == [];
    SerializedFromIsRest(rs, 0);
    assert Serialized([]) + SerializedFrom(rs, 0) == SerializedFrom(rs, 0);
    TakeRestOfSerialized(codec, kind, rs, 0, Decoded(map[], []));
  }

  // ---------- what can be read was written ----------

  // The records that a turn of the decoder after these accepts, and all that follow.
  lemma {:induction false} RestWasWritten(codec: Codec, kind: bv8, done: seq<Record>, d: Decoded, b: Bytes)
    returns (rs: seq<Record>, e: Decoded)
    requires TakeAll(codec, kind, done) == Ok(d) && TakeRest(codec, kind, d, b).Ok?
    ensures done <= rs && b == SerializedFrom(rs, |done|) && forall i :: |done| <= i < |rs| ==> Readable(rs[i])
    ensures TakeAll(codec, kind, rs) == Ok(e) && TakeRest(codec, kind, d, b) == Ok(e.chunks)
    decreases |b|
  {
    hide FromLittleEndian, WriteFile, ReadChunk, Take;
    var p := ReadChunk(b);
    if p.One? {
      var next := done + [p.r];
      assert next[..|done|] == done;
      OneIsReadable(b);
      ReadIsWritten(b);
      rs, e := RestWasWritten(codec, kind, next, Take(codec, kind, d, p.r).value, p.rest);
      assert rs[|done|] == next[|done|];
    } else {
      NoneIsEnd(b);
      rs, e := done, d;
    }
  }

  lemma OneIsReadable(b: Bytes)
    requires ReadChunk(b).One?
    ensures Readable(ReadChunk(b).r) && |ReadChunk(b).rest| < |b|
  {
    hide FromLittleEndian, LittleEndian, Power256, AsInt;
    FromLittleEndianRoundTrip(b[1..1 + LEN_SIZE]);
  }

  lemma NoneIsEnd(b: Bytes)
    ensures ReadChunk(b).AtEnd? <==> b == []
  {
    hide FromLittleEndian;
  }

  lemma HeaderWasWritten(file: Bytes)
    requires HeaderOk(file)
    ensures file == FileHeader(file[4]) + file[5..]
  {
    hide LittleEndian, FromLittleEndian, Power256;
    FromLittleEndianRoundTrip(file[..4]);
    assert file == file[..4] + [file[4]] + file[5..];
  }

  // The file is a header and these records, and the decoder takes them all.
  ghost predicate IsArchiveOf(codec: Codec, file: Bytes, rs: seq<Record>, cs: seq<Bytes>) {
    && |file| > 4 && file == FileHeader(file[4]) + Serialized(rs) && (forall i :: 0 <= i < |rs| ==> Readable(rs[i]))
    && TakeAll(codec, file[4], rs).Ok? && TakeAll(codec, file[4], rs).value.chunks == cs
  }

  /** Exactly when a file decodes: if and only if it is, byte for byte, what the encoder writes for some
      records that can be taken one by one; then it decodes to what they hold. */
  lemma DecodesIffWritten(codec: Codec, file: Bytes, cs: seq<Bytes>)
    ensures DecodedFile(codec, file) == Ok(cs) <==> exists rs :: IsArchiveOf(codec, file, rs, cs)
  {
    hide LittleEndian, FromLittleEndian, Power256, FileHeader, TakeRest, TakeAll;
    if DecodedFile(codec, file) == Ok(cs) {
      TakenNothing(codec, file[4]);
      var rs, e := RestWasWritten(codec, file[4], [], Decoded(map[], []), file[5..]);
      HeaderWasWritten(file);
      SerializedFromIsRest(rs, 0);
      assert rs[..0] == [] && Serialized([]) + SerializedFrom(rs, 0) == SerializedFrom(rs, 0);
      assert IsArchiveOf(codec, file, rs, cs);
    }
    if rs :| IsArchiveOf(codec, file, rs, cs) {
      DecodedOfSerialized(codec, file[4], rs);
    }
  }

  lemma TakenNothing(codec: Codec, kind: bv8)
    ensures TakeAll(codec, kind, []) == Ok(Decoded(map[], []))
  {
  }

  lemma {:induction false} NoDigits(k: nat)
    ensures LittleEndian(0, k) == seq(k, _ => 0)
  {
    if k > 0 {
      NoDigits(k - 1);
      assert LittleEndian(0, k) == [ByteOf(0)] + LittleEndian(0, k - 1);
    }
  }

  lemma FieldOf(n: nat)
    requires n < 256
    ensures LittleEndian(n, LEN_SIZE) == [ByteOf(n), 0, 0, 0, 0, 0, 0, 0]
  {
    NoDigits(LEN_SIZE - 1);
    assert LittleEndian(n, LEN_SIZE) == [ByteOf(n)] + LittleEndian(0, LEN_SIZE - 1);
  }

  lemma MagicNumber()
    ensures LittleEndian(CHECKBIT, 4) == [0x40, 0xe2, 1, 0]
  {
    NoDigits(1);
    assert LittleEndian(CHECKBIT, 4) == [ByteOf(64)] + LittleEndian(482, 3);
    assert LittleEndian(482, 3) == [ByteOf(226)] + LittleEndian(1, 2);
    assert LittleEndian(1, 2) == [ByteOf(1)] + LittleEndian(0, 1);
    SomeBytes();
  }

  lemma SomeBytes()
    ensures ByteOf(1) == 1 && ByteOf(2) == 2 && ByteOf(20) == 20 && ByteOf(64) == 0x40 && ByteOf(226) == 0xe2
  {
  }

  /** The layout by an example: the archive of "ab" twice, not compressed, byte by byte. */
  lemma LayoutOfArchive(sum: Key)
    ensures FileHeader(COMPRESS_NONE) + Serialized([Data([0x61, 0x62]), Fingerprint(sum)]) ==
            [0x40, 0xe2, 1, 0, 2] + [1, 2, 0, 0, 0, 0, 0, 0, 0, 0x61, 0x62] + [0, 20, 0, 0, 0, 0, 0, 0, 0] + sum
  {
    hide LittleEndian;
    FieldOf(2);
    FieldOf(20);
    MagicNumber();
    SomeBytes();
    var one, two := [Data([0x61, 0x62])], [Data([0x61, 0x62]), Fingerprint(sum)];
    assert two[..1] == one && one[..0] == [];
    assert Serialized([]) == [] && Serialized(one) == WriteFile(one[0]);
    assert Serialized(two) == WriteFile(one[0]) + WriteFile(two[1]);
  }
}
