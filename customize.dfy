/** `customize_wilhelm` from end to end: read the header, walk the chunks,
    decode and edit the glTF document, re-encode and pad it, and rebuild the
    container around it and the BIN payload. Decoding (UTF-8 then
    `json.loads`) and encoding (`json.dumps` with compact separators, then
    UTF-8) are library code and come in as the parameters `loads` and `dumps`;
    `loads` answers None where the library raises. */
module Customize {
  import opened Outcome
  import opened Binary
  import opened JsonDoc
  import opened Wilhelm
  import opened Glb

  /** What goes into the rebuilt container. */
  datatype Parts = Parts(magicVersion: Bytes, json: Bytes, bin: Bytes)

  /** Everything `customize_wilhelm` computes before the rebuild, and the
      error it raises on the way when it does. */
  function RewriteParts(data: Bytes, loads: Bytes -> Option<Json>, dumps: Json -> Bytes): (r: Result<Parts>)
    ensures r == Err(ShortHeader) <==> |data| < HEADER_SIZE
    ensures |data| >= HEADER_SIZE && Walk(data, HEADER_SIZE, DeclaredLength(data)).Err? ==>
      r == Err(Walk(data, HEADER_SIZE, DeclaredLength(data)).error)
    ensures |data| >= HEADER_SIZE && Walk(data, HEADER_SIZE, DeclaredLength(data)).Ok? ==>
      var chunks := Walk(data, HEADER_SIZE, DeclaredLength(data)).value;
      var js := LastWithTag(chunks, JSON_TAG);
      && (js.None? ==> r == Err(NoJsonChunk))
      && (js.Some? && loads(js.value).None? ==> r == Err(MalformedJson))
      && (js.Some? && loads(js.value).Some? && EditedDocument(loads(js.value).value).Err? ==>
            r == Err(EditedDocument(loads(js.value).value).error))
      && (js.Some? && loads(js.value).Some? && EditedDocument(loads(js.value).value).Ok? ==>
            && (r.Ok? <==> LastWithTag(chunks, BIN_TAG).Some?)
            && (r.Err? ==> r == Err(NoBinChunk)))
    ensures r.Ok? ==> |data| >= HEADER_SIZE && r.value.magicVersion == data[..8] && |r.value.json| % 4 == 0
  {
    if |data| < HEADER_SIZE then Err(ShortHeader)
    else
      match Walk(data, HEADER_SIZE, DeclaredLength(data))
      case Err(e) => Err(e)
      case Ok(chunks) =>
        match LastWithTag(chunks, JSON_TAG)
        case None => Err(NoJsonChunk)
        case Some(jsonData) =>
          match loads(jsonData)
          case None => Err(MalformedJson)
          case Some(gltf) =>
            match EditedDocument(gltf)
            case Err(e) => Err(e)
            case Ok(edited) =>
              match LastWithTag(chunks, BIN_TAG)
              case None => Err(NoBinChunk)
              case Some(bin) => Ok(Parts(data[..8], PadJson(dumps(edited)), bin))
  }

  /** The rewrite. On success the output keeps the input's magic and
      version, declares its own length, and holds exactly the padded
      re-encoded JSON chunk and then the last BIN payload of the input;
      every failure of the source is the matching error. */
  method CustomizeWilhelm(data: Bytes, loads: Bytes -> Option<Json>, dumps: Json -> Bytes)
    returns (r: Result<Bytes>)
    ensures |data| < HEADER_SIZE ==> r == Err(ShortHeader)
    ensures RewriteParts(data, loads, dumps).Err? ==> r == Err(RewriteParts(data, loads, dumps).error)
    ensures RewriteParts(data, loads, dumps).Ok? ==>
      var p := RewriteParts(data, loads, dumps).value;
      && (r.Ok? <==> HEADER_SIZE + CHUNK_HEADER_SIZE + |p.json| + CHUNK_HEADER_SIZE + |p.bin| < U32_LIMIT)
      && (r.Err? ==> r.error == TooLarge)
      && (r.Ok? ==> GlbLayout(r.value, p.magicVersion, p.json, p.bin))
    ensures r.Ok? ==> |data| >= HEADER_SIZE && |r.value| >= HEADER_SIZE
    ensures r.Ok? ==> r.value[..8] == data[..8] && DeclaredLength(r.value) == |r.value|
  {
    if |data| < HEADER_SIZE {
      return Err(ShortHeader);
    }
    var header := data[..HEADER_SIZE];
    var totalLength := ReadU32Le(header[8..12]);
    var found := WalkChunks(data, totalLength);
    assert totalLength == DeclaredLength(data);
    if found.Err? {
      return Err(found.error);
    }
    if found.value.json.None? {
      return Err(NoJsonChunk);
    }
    var gltf := loads(found.value.json.value);
    if gltf.None? {
      return Err(MalformedJson);
    }
    var edited := EditDocument(gltf.value);
    if edited.Err? {
      return Err(edited.error);
    }
    var newJson := dumps(edited.value);
    var newJsonPadded := PadJson(newJson);
    if found.value.bin.None? {
      return Err(NoBinChunk);
    }
    assert header[..8] == data[..8];
    assert RewriteParts(data, loads, dumps) == Ok(Parts(header[..8], newJsonPadded, found.value.bin.value));
    r := Rebuild(header[..8], newJsonPadded, found.value.bin.value);
  }

  /** No output without both chunks: a container lacking a JSON chunk, or
      lacking a BIN chunk, is never rewritten. */
  lemma RewriteNeedsBothChunks(data: Bytes, loads: Bytes -> Option<Json>, dumps: Json -> Bytes)
    requires |data| >= HEADER_SIZE && Walk(data, HEADER_SIZE, DeclaredLength(data)).Ok?
    ensures var chunks := Walk(data, HEADER_SIZE, DeclaredLength(data)).value;
      && ((forall i :: 0 <= i < |chunks| ==> chunks[i].tag != JSON_TAG) ==> RewriteParts(data, loads, dumps) == Err(NoJsonChunk))
      && ((forall i :: 0 <= i < |chunks| ==> chunks[i].tag != BIN_TAG) ==> RewriteParts(data, loads, dumps).Err?)
  {
    var chunks := Walk(data, HEADER_SIZE, DeclaredLength(data)).value;
    LastWithTagMeaning(chunks, JSON_TAG);
    LastWithTagMeaning(chunks, BIN_TAG);
  }

  /** What a successful rewrite is made of: the magic and version of the
      input, the last JSON chunk's document edited, re-encoded and padded with spaces to a
      multiple of 4, and the payload of the last BIN chunk of the input,
      byte for byte. */
  lemma RewritePartsMeaning(data: Bytes, loads: Bytes -> Option<Json>, dumps: Json -> Bytes)
    ensures RewriteParts(data, loads, dumps).Ok? ==>
      var p := RewriteParts(data, loads, dumps).value;
      && |data| >= HEADER_SIZE
      && p.magicVersion == data[..8]
      && Walk(data, HEADER_SIZE, DeclaredLength(data)).Ok?
      && var chunks := Walk(data, HEADER_SIZE, DeclaredLength(data)).value;
      && (exists i :: 0 <= i < |chunks| && chunks[i].tag == BIN_TAG && chunks[i].payload == p.bin
            && forall j :: i < j < |chunks| ==> chunks[j].tag != BIN_TAG)
      && (exists i :: 0 <= i < |chunks| && chunks[i].tag == JSON_TAG
            && (forall j :: i < j < |chunks| ==> chunks[j].tag != JSON_TAG)
            && loads(chunks[i].payload).Some?
            && EditedDocument(loads(chunks[i].payload).value).Ok?
            && var text := dumps(EditedDocument(loads(chunks[i].payload).value).value);
            && |p.json| % 4 == 0 && |text| <= |p.json| < |text| + 4
            && p.json[..|text|] == text
            && forall k :: |text| <= k < |p.json| ==> p.json[k] == SPACE)
  {
    if RewriteParts(data, loads, dumps).Ok? {
      var chunks := Walk(data, HEADER_SIZE, DeclaredLength(data)).value;
      LastWithTagMeaning(chunks, JSON_TAG);
      LastWithTagMeaning(chunks, BIN_TAG);
    }
  }
}
