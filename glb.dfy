/** The GLB container as `customize_wilhelm` reads and writes it: a 12-byte
    header (magic, version, total length, each four bytes little-endian),
    then chunks of an 8-byte header (payload length, four-byte type tag)
    followed by the payload. */
module Glb {
  import opened Outcome
  import opened Binary

  const HEADER_SIZE: nat := 12
  const CHUNK_HEADER_SIZE: nat := 8

  /** b'JSON' */
  const JSON_TAG: Bytes := [0x4A, 0x53, 0x4F, 0x4E]
  /** b'BIN\x00' */
  const BIN_TAG: Bytes := [0x42, 0x49, 0x4E, 0x00]
  /** b' ', the filler of the JSON chunk */
  const SPACE: Byte := 0x20

  /** A chunk as the walk meets it: where its header starts, the length its
      header declares, its tag, and the payload bytes actually present. */
  datatype Chunk = Chunk(offset: nat, length: nat, tag: Bytes, payload: Bytes)

  function Min(a: nat, b: nat): nat {
    if a <= b then a else b
  }

  /** The total length field of the header. */
  function DeclaredLength(data: Bytes): (n: nat)
    requires |data| >= HEADER_SIZE
    ensures n < U32_LIMIT
  {
    ReadU32Le(data[8..12])
  }

  /** The chunk whose 8-byte header starts at `offset`. The payload is the
      Python slice `data[offset+8:offset+8+length]`, which is silently short
      when the buffer ends early. */
  function ChunkAt(data: Bytes, offset: nat): (c: Chunk)
    requires offset + CHUNK_HEADER_SIZE <= |data|
    ensures c.offset == offset && |c.tag| == 4
    ensures c.length == ReadU32Le(data[offset..offset + 4]) && c.tag == data[offset + 4..offset + 8]
    ensures |c.payload| <= c.length
    ensures |c.payload| == Min(c.length, |data| - offset - CHUNK_HEADER_SIZE)
    ensures c.payload == data[offset + CHUNK_HEADER_SIZE..offset + CHUNK_HEADER_SIZE + |c.payload|]
  {
    var length := ReadU32Le(data[offset..offset + 4]);
    Chunk(offset, length, data[offset + 4..offset + 8],
          data[offset + CHUNK_HEADER_SIZE..Min(offset + CHUNK_HEADER_SIZE + length, |data|)])
  }

  /** The chunks the loop of `customize_wilhelm` visits from `offset` on: it
      keeps going while the offset is below the declared total length (not
      the buffer length) and steps over each chunk's header and declared
      length. An 8-byte chunk header that runs past the buffer raises. */
  function Walk(data: Bytes, offset: nat, total: nat): (r: Result<seq<Chunk>>)
    ensures r.Err? ==> r.error.ShortChunkHeader?
    decreases total - offset
  {
    if offset >= total then Ok([])
    else if offset + CHUNK_HEADER_SIZE > |data| then Err(ShortChunkHeader(offset))
    else
      var c := ChunkAt(data, offset);
      match Walk(data, offset + CHUNK_HEADER_SIZE + c.length, total)
      case Ok(rest) => Ok([c] + rest)
      case Err(e) => Err(e)
  }

  /** The payload of the last chunk carrying `tag`: a later chunk of the same
      type overwrites what an earlier one left. */
  function LastWithTag(chunks: seq<Chunk>, tag: Bytes): (r: Option<Bytes>)
    ensures r.None? <==> forall i :: 0 <= i < |chunks| ==> chunks[i].tag != tag
  {
    if chunks == [] then None
    else if chunks[|chunks| - 1].tag == tag then Some(chunks[|chunks| - 1].payload)
    else LastWithTag(chunks[..|chunks| - 1], tag)
  }

  /** What the walk remembers: the JSON and the BIN payloads, if seen. */
  datatype Found = Found(json: Option<Bytes>, bin: Option<Bytes>)

  /** The chunks seen so far in front of whatever the rest of the walk yields. */
  function Prepend(seen: seq<Chunk>, rest: Result<seq<Chunk>>): Result<seq<Chunk>> {
    match rest
    case Ok(cs) => Ok(seen + cs)
    case Err(e) => Err(e)
  }

  lemma PrependNothing(w: Result<seq<Chunk>>)
    ensures Prepend([], w) == w
  {
    if w.Ok? {
      assert [] + w.value == w.value;
    }
  }

  lemma PrependStep(seen: seq<Chunk>, c: Chunk, w: Result<seq<Chunk>>)
    ensures Prepend(seen, Prepend([c], w)) == Prepend(seen + [c], w)
  {
    if w.Ok? {
      assert seen + ([c] + w.value) == (seen + [c]) + w.value;
    }
  }

  /** One turn of the chunk loop: the chunk at `offset` joins the chunks
      seen, and the walk goes on after its declared length. */
  lemma WalkAdvance(data: Bytes, total: nat, offset: nat, seen: seq<Chunk>, c: Chunk, next: nat)
    requires offset < total && offset + CHUNK_HEADER_SIZE <= |data|
    requires c == ChunkAt(data, offset) && next == offset + CHUNK_HEADER_SIZE + c.length
    requires Walk(data, HEADER_SIZE, total) == Prepend(seen, Walk(data, offset, total))
    ensures Walk(data, HEADER_SIZE, total) == Prepend(seen + [c], Walk(data, next, total))
  {
    var w := Walk(data, offset + CHUNK_HEADER_SIZE + c.length, total);
    assert Walk(data, offset, total) == Prepend([c], w);
    PrependStep(seen, c, w);
  }

  /** Where the chunk loop leaves: at the declared total the walk is the
      chunks seen; at a chunk header past the buffer it fails there. */
  lemma WalkLeaves(data: Bytes, total: nat, offset: nat, seen: seq<Chunk>)
    requires Walk(data, HEADER_SIZE, total) == Prepend(seen, Walk(data, offset, total))
    ensures offset >= total ==> Walk(data, HEADER_SIZE, total) == Ok(seen)
    ensures offset < total && offset + CHUNK_HEADER_SIZE > |data| ==>
      Walk(data, HEADER_SIZE, total) == Err(ShortChunkHeader(offset))
  {
    if offset >= total {
      assert seen + [] == seen;
    }
  }

  lemma LastWithTagStep(seen: seq<Chunk>, c: Chunk, tag: Bytes)
    ensures LastWithTag(seen + [c], tag) == if c.tag == tag then Some(c.payload) else LastWithTag(seen, tag)
  {
    assert (seen + [c])[..|seen|] == seen;
  }

  /** The statements of the chunk loop that read the chunk header at
      `offset` and slice the payload after it: the in-loop form of `ChunkAt`,
      which specifies it. */
  method ReadChunk(data: Bytes, offset: nat) returns (chunkLength: nat, chunkType: Bytes, chunkData: Bytes)
    requires offset + CHUNK_HEADER_SIZE <= |data|
    ensures Chunk(offset, chunkLength, chunkType, chunkData) == ChunkAt(data, offset)
  {
    chunkLength := ReadU32Le(data[offset..offset + 4]);
    chunkType := data[offset + 4..offset + 8];
    chunkData := data[offset + 8..Min(offset + 8 + chunkLength, |data|)];
  }

  /** The chunk loop, starting right after the 12-byte header. It returns the
      last JSON and the last BIN payload among the chunks `Walk` visits, and
      fails exactly where `Walk` does. Chunks of any other type are skipped. */
  method WalkChunks(data: Bytes, totalLength: nat) returns (r: Result<Found>)
    ensures Walk(data, HEADER_SIZE, totalLength).Err? ==> r == Err(Walk(data, HEADER_SIZE, totalLength).error)
    ensures Walk(data, HEADER_SIZE, totalLength).Ok? ==>
      var chunks := Walk(data, HEADER_SIZE, totalLength).value;
      r == Ok(Found(LastWithTag(chunks, JSON_TAG), LastWithTag(chunks, BIN_TAG)))
  {
    var offset := HEADER_SIZE;
    var json: Option<Bytes> := None;
    var bin: Option<Bytes> := None;
    ghost var seen: seq<Chunk> := [];
    PrependNothing(Walk(data, offset, totalLength));
    while offset < totalLength
      invariant Walk(data, HEADER_SIZE, totalLength) == Prepend(seen, Walk(data, offset, totalLength))
      invariant json == LastWithTag(seen, JSON_TAG) && bin == LastWithTag(seen, BIN_TAG)
      decreases totalLength - offset
    {
      if offset + CHUNK_HEADER_SIZE > |data| {
        WalkLeaves(data, totalLength, offset, seen);
        return Err(ShortChunkHeader(offset));
      }
      var chunkLength, chunkType, chunkData := ReadChunk(data, offset);
      ghost var c := Chunk(offset, chunkLength, chunkType, chunkData);
      WalkAdvance(data, totalLength, offset, seen, c, offset + CHUNK_HEADER_SIZE + chunkLength);
      LastWithTagStep(seen, c, JSON_TAG);
      LastWithTagStep(seen, c, BIN_TAG);
      seen := seen + [c];
      if chunkType == JSON_TAG {
        json := Some(chunkData);
      } else if chunkType == BIN_TAG {
        bin := Some(chunkData);
      }
      offset := offset + CHUNK_HEADER_SIZE + chunkLength;
    }
    WalkLeaves(data, totalLength, offset, seen);
    return Ok(Found(json, bin));
  }

  /** The walk tiles the buffer from `offset`: the first chunk header sits at
      `offset`, each next one exactly `8 + length` bytes after the previous
      one (so at least 8 further on), every visited header lies below the
      declared total and inside the buffer, and the walk stops at the first
      offset that reaches the total. */
  lemma {:induction false} WalkTiles(data: Bytes, offset: nat, total: nat)
    requires Walk(data, offset, total).Ok?
    ensures var chunks := Walk(data, offset, total).value;
      && (chunks == [] <==> offset >= total)
      && (chunks != [] ==> chunks[0].offset == offset)
      && (forall i :: 0 <= i < |chunks| ==>
            && offset <= chunks[i].offset < total
            && chunks[i].offset + CHUNK_HEADER_SIZE <= |data|
            && chunks[i] == ChunkAt(data, chunks[i].offset))
      && (forall i :: 0 <= i < |chunks| - 1 ==>
            chunks[i + 1].offset == chunks[i].offset + CHUNK_HEADER_SIZE + chunks[i].length)
      && (chunks != [] ==>
            var last := chunks[|chunks| - 1];
            last.offset + CHUNK_HEADER_SIZE + last.length >= total)
    decreases total - offset
  {
    if offset < total {
      var c := ChunkAt(data, offset);
      var next := offset + CHUNK_HEADER_SIZE + c.length;
      WalkTiles(data, next, total);
      var rest := Walk(data, next, total).value;
      assert Walk(data, offset, total).value == [c] + rest;
    }
  }

  /** The walk fails only on a chunk header that it actually reaches: the
      chunks before it succeed and end exactly where that header starts,
      below the declared total, and the header runs past the end of the
      buffer. So a walk whose every reached header fits succeeds. */
  lemma {:induction false} WalkFailsOnShortHeader(data: Bytes, offset: nat, total: nat)
    requires Walk(data, offset, total).Err?
    ensures var e := Walk(data, offset, total).error;
      && e.ShortChunkHeader?
      && offset <= e.offset < total
      && e.offset + CHUNK_HEADER_SIZE > |data|
      && Walk(data, offset, e.offset).Ok?
      && var cs := Walk(data, offset, e.offset).value;
      && (cs == [] ==> e.offset == offset)
      && (cs != [] ==> cs[|cs| - 1].offset + CHUNK_HEADER_SIZE + cs[|cs| - 1].length == e.offset)
    decreases total - offset
  {
    var e := Walk(data, offset, total).error;
    if offset + CHUNK_HEADER_SIZE > |data| {
      assert e.offset == offset;
      assert Walk(data, offset, e.offset) == Ok([]);
    } else {
      var c := ChunkAt(data, offset);
      var next := offset + CHUNK_HEADER_SIZE + c.length;
      WalkFailsOnShortHeader(data, next, total);
      assert Walk(data, next, total).error == e;
      var rest := Walk(data, next, e.offset).value;
      assert Walk(data, offset, e.offset) == Ok([c] + rest);
      var cs := [c] + rest;
      assert cs[|cs| - 1] == if rest == [] then c else rest[|rest| - 1];
    }
  }

  /** A container whose header declares 24 bytes and whose only chunk
      declares an 8-byte BIN payload, cut off after 2 payload bytes: the walk
      accepts it and hands on the 2 bytes that are there. */
  lemma TruncatedChunkIsAccepted()
    ensures var data: Bytes := [0x67, 0x6C, 0x54, 0x46, 2, 0, 0, 0, 24, 0, 0, 0,
                                8, 0, 0, 0, 0x42, 0x49, 0x4E, 0x00, 0xAA, 0xBB];
      && DeclaredLength(data) == 24
      && Walk(data, HEADER_SIZE, DeclaredLength(data)) == Ok([Chunk(12, 8, BIN_TAG, [0xAA, 0xBB])])
  {
    var data: Bytes := [0x67, 0x6C, 0x54, 0x46, 2, 0, 0, 0, 24, 0, 0, 0,
                        8, 0, 0, 0, 0x42, 0x49, 0x4E, 0x00, 0xAA, 0xBB];
    assert data[8..12] == [24, 0, 0, 0];
    assert DeclaredLength(data) == 24;
    assert data[12..16] == [8, 0, 0, 0];
    assert data[16..20] == BIN_TAG;
    assert data[20..22] == [0xAA, 0xBB];
    assert ChunkAt(data, 12) == Chunk(12, 8, BIN_TAG, [0xAA, 0xBB]);
    assert Walk(data, 28, 24) == Ok([]);
    assert Walk(data, 12, 24) == Ok([ChunkAt(data, 12)] + []);
    assert [ChunkAt(data, 12)] + [] == [Chunk(12, 8, BIN_TAG, [0xAA, 0xBB])];
  }

  /** When `LastWithTag` finds a payload, it is the payload of a chunk with
      the tag after which no chunk has it. */
  lemma {:induction false} LastWithTagMeaning(chunks: seq<Chunk>, tag: Bytes)
    ensures LastWithTag(chunks, tag).Some? ==>
      exists i :: 0 <= i < |chunks| && chunks[i].tag == tag
        && chunks[i].payload == LastWithTag(chunks, tag).value
        && forall j :: i < j < |chunks| ==> chunks[j].tag != tag
  {
    if chunks != [] {
      var n := |chunks| - 1;
      if chunks[n].tag == tag {
        assert chunks[n].payload == LastWithTag(chunks, tag).value;
      } else if LastWithTag(chunks, tag).Some? {
        var front := chunks[..n];
        LastWithTagMeaning(front, tag);
        var i :| 0 <= i < n && front[i].tag == tag
          && front[i].payload == LastWithTag(front, tag).value
          && forall j :: i < j < n ==> front[j].tag != tag;
        assert chunks[i] == front[i];
        assert forall j :: i < j < n ==> chunks[j] == front[j];
      }
    }
  }

  /** `(4 - n % 4) % 4`: the filler that brings `n` to a multiple of 4. */
  function PaddingNeeded(n: nat): (p: nat)
    ensures p < 4 && (n + p) % 4 == 0
  {
    (4 - n % 4) % 4
  }

  /** The re-encoded JSON followed by spaces up to the next 4-byte boundary:
      its length is the least multiple of 4 not below the encoded length. */
  function PadJson(json: Bytes): (padded: Bytes)
    ensures |padded| % 4 == 0 && |json| <= |padded| < |json| + 4
    ensures padded[..|json|] == json
    ensures forall i :: |json| <= i < |padded| ==> padded[i] == SPACE
  {
    json + seq(PaddingNeeded(|json|), _ => SPACE)
  }

  /** The container `customize_wilhelm` writes: the input's magic and
      version, a total length equal to the number of bytes written, then a
      JSON chunk and a BIN chunk that the chunk walk reads back as written. */
  predicate GlbLayout(out: Bytes, magicVersion: Bytes, json: Bytes, bin: Bytes) {
    && |out| == HEADER_SIZE + CHUNK_HEADER_SIZE + |json| + CHUNK_HEADER_SIZE + |bin|
    && out[..8] == magicVersion
    && DeclaredLength(out) == |out|
    && Walk(out, HEADER_SIZE, DeclaredLength(out)) ==
         Ok([Chunk(HEADER_SIZE, |json|, JSON_TAG, json),
             Chunk(HEADER_SIZE + CHUNK_HEADER_SIZE + |json|, |bin|, BIN_TAG, bin)])
  }

  /** Reading a two-chunk container whose chunk headers are in place. */
  lemma {:induction false} WalkTwoChunks(out: Bytes, j: nat, b: nat)
    requires |out| == 28 + j + b
    requires ReadU32Le(out[12..16]) == j && out[16..20] == JSON_TAG
    requires ReadU32Le(out[20 + j..24 + j]) == b && out[24 + j..28 + j] == BIN_TAG
    ensures Walk(out, 12, |out|) ==
      Ok([Chunk(12, j, JSON_TAG, out[20..20 + j]), Chunk(20 + j, b, BIN_TAG, out[28 + j..])])
  {
    assert Walk(out, 28 + j + b, |out|) == Ok([]);
    var second := ChunkAt(out, 20 + j);
    assert second == Chunk(20 + j, b, BIN_TAG, out[28 + j..]);
    assert 20 + j + CHUNK_HEADER_SIZE + second.length == 28 + j + b;
    assert [second] + [] == [second];
    assert Walk(out, 20 + j, |out|) == Ok([second]);
    var first := ChunkAt(out, 12);
    assert first == Chunk(12, j, JSON_TAG, out[20..20 + j]);
    assert 12 + CHUNK_HEADER_SIZE + first.length == 20 + j;
    assert Walk(out, 12, |out|) == Ok([first] + [second]);
    assert [first] + [second] == [first, second];
  }

  /** Re-reading a rebuilt container finds the JSON and the BIN payload that
      were written into it. */
  lemma RebuiltReadsBack(out: Bytes, magicVersion: Bytes, json: Bytes, bin: Bytes)
    requires GlbLayout(out, magicVersion, json, bin)
    ensures var chunks := Walk(out, HEADER_SIZE, DeclaredLength(out)).value;
      LastWithTag(chunks, JSON_TAG) == Some(json) && LastWithTag(chunks, BIN_TAG) == Some(bin)
  {
    var chunks := Walk(out, HEADER_SIZE, DeclaredLength(out)).value;
    assert chunks[..1] == [chunks[0]];
    assert JSON_TAG != BIN_TAG by { assert JSON_TAG[0] != BIN_TAG[0]; }
  }

  /** Rebuilding the container: header with the recomputed total length, the
      JSON chunk, then the BIN chunk, each appended in turn to a growing
      buffer. Packing a total length of 2^32 or more raises. */
  method Rebuild(magicVersion: Bytes, jsonPadded: Bytes, bin: Bytes) returns (r: Result<Bytes>)
    requires |magicVersion| == 8
    ensures r.Ok? <==> HEADER_SIZE + CHUNK_HEADER_SIZE + |jsonPadded| + CHUNK_HEADER_SIZE + |bin| < U32_LIMIT
    ensures r.Err? ==> r.error == TooLarge
    ensures r.Ok? ==> GlbLayout(r.value, magicVersion, jsonPadded, bin)
  {
    var newTotalLength := HEADER_SIZE + CHUNK_HEADER_SIZE + |jsonPadded| + CHUNK_HEADER_SIZE + |bin|;
    if newTotalLength >= U32_LIMIT {
      return Err(TooLarge);
    }
    var glb: Bytes := [];
    glb := glb + magicVersion;
    glb := glb + U32Le(newTotalLength);
    glb := glb + U32Le(|jsonPadded|);
    glb := glb + JSON_TAG;
    glb := glb + jsonPadded;
    glb := glb + U32Le(|bin|);
    glb := glb + BIN_TAG;
    glb := glb + bin;
    var j := |jsonPadded|;
    assert glb[..8] == magicVersion;
    assert glb[8..12] == U32Le(newTotalLength);
    assert glb[12..16] == U32Le(j);
    assert glb[16..20] == JSON_TAG;
    assert glb[20..20 + j] == jsonPadded;
    assert glb[20 + j..24 + j] == U32Le(|bin|);
    assert glb[24 + j..28 + j] == BIN_TAG;
    assert glb[28 + j..] == bin;
    ReadPacked(newTotalLength);
    ReadPacked(j);
    ReadPacked(|bin|);
    WalkTwoChunks(glb, j, |bin|);
    return Ok(glb);
  }
}
