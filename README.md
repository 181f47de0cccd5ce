# Wilhelm GLB rewriter, modelled in Dafny

This project models `customize_wilhelm` in `experiments/customize_wilhelm.py`:
the routine that takes a GLB file (the binary container of glTF 2.0: a
12-byte header of magic, version and total length, then chunks, each an
8-byte header of payload length and type tag followed by the payload),
recolours every material of the embedded glTF JSON document with the Wilhelm
brand colours, adds the Wilhelm `extras` block, and writes a new container
holding the re-encoded JSON chunk and the original BIN chunk.

Modules:

- `Outcome` (`outcome.dfy`): `Option`, `Result` and the `Error` datatype, one
  constructor per exception the routine can raise, in the order it reaches them.
- `Binary` (`binary.dfy`): bytes and the little-endian 32-bit field
  (`struct` format `<I`), with both round trips.
- `JsonDoc` (`json.dfy`): the decoded document as a datatype; objects are
  ordered field lists, `Lookup` is `dict.get` and `Put` is `d[k] = v`
  (an existing key keeps its place, a new key goes at the end).
- `Wilhelm` (`wilhelm.dfy`): the material loop and the `extras` assignment,
  as methods proved against the functions `RebrandMaterial` and `EditedDocument`.
- `Glb` (`glb.dfy`): the chunk walk (a method with the `while` loop over
  `offset`, proved against the recursive function `Walk`), the choice of the
  last JSON and BIN chunk, the space padding and the rebuild of the output
  buffer by successive appends.
- `Customize` (`customize.dfy`): the whole routine, `CustomizeWilhelm`.

The code is modelled as written: no magic or version check; the loop runs
while the offset is below the declared total length, not the buffer length;
a payload cut short by the end of the buffer is taken as it is; chunks whose
tag is neither `JSON` nor `BIN\0` are skipped and do not reach the output;
the BIN chunk is copied without re-padding; a missing JSON or BIN chunk is an
error; the last chunk may run past the declared total length (the walk only
stops at the first offset reaching it), and the declared total is never
compared with the buffer length, so bytes after it are ignored. The glTF 2.0
container rules (checked magic and version, payload lengths that are
multiples of 4, padding of the BIN chunk with zeros, chunks that end exactly
at a total length equal to the file length) are
stricter than the code, and where they differ the model
follows the code.

## Model

| member | source | states |
|---|---|---|
| `Binary.ReadU32Le` | experiments/customize_wilhelm.py:25 | a 4-byte little-endian field decodes to a value below 2^32 whose low byte is the first byte |
| `Binary.U32Le` | experiments/customize_wilhelm.py:86 | packing a value below 2^32 gives four bytes, the least significant first |
| `Binary.ReadPacked` | experiments/customize_wilhelm.py:86 | decoding a packed length field returns the value packed |
| `Binary.PackRead` | experiments/customize_wilhelm.py:36 | packing a decoded field returns the same four bytes |
| `JsonDoc.Lookup` | experiments/customize_wilhelm.py:54 | a key is found exactly when it is among the object's keys, and the value found is stored under it |
| `JsonDoc.Put` | experiments/customize_wilhelm.py:53 | after `d[k] = v`, `k` maps to `v` and every other key keeps its value |
| `JsonDoc.PutKeyOrder` | experiments/customize_wilhelm.py:53 | after `d[k] = v` the key order is unchanged when `k` was present, and otherwise `k` is appended at the end, which is the order `json.dumps` writes |
| `JsonDoc.PutKeepsKeysUnique` | experiments/customize_wilhelm.py:64-70 | assignment never makes a key appear twice |
| `Wilhelm.Recolour` | experiments/customize_wilhelm.py:56-58 | after the three assignments on the `pbrMetallicRoughness` dict, the base colour is coral, metallic is 0.1, roughness is 0.6, every other key keeps its value, and the keys are the old ones in their order followed by whichever of base colour, metallic, roughness were new, in that order |
| `Wilhelm.RebrandMaterial` | experiments/customize_wilhelm.py:53-61 | one loop turn fails exactly when the material is not an object or its `pbrMetallicRoughness` is not an object; otherwise the material is named Wilhelm, gets the emissive factor, keeps `pbrMetallicRoughness` exactly when it had it, that entry is `Recolour` of the original one (coral base colour, metallic 0.1 and roughness 0.6 appended in that order when new, its other keys kept), all other keys are unchanged, and the key order is the old one followed by `name` and then `emissiveFactor` where they were new |
| `Wilhelm.RebrandMaterials` | experiments/customize_wilhelm.py:52-61 | the loop succeeds exactly when every material can be rebranded, and then returns as many materials as it got, each the rebranded original at the same position |
| `Wilhelm.RebrandAll` | experiments/customize_wilhelm.py:52-61 | the reference for the loop: a result exactly when every material can be rebranded, then one rebranded material per original at the same position |
| `Wilhelm.EditedDocument` | experiments/customize_wilhelm.py:52-70 | the reference for the edit: it fails only with NotAnObject or BadMaterials, and on success the document is an object whose `extras` is the branding block; `EditedDocumentFails`, `EditedDocumentTopLevel` and `EditedDocumentMaterials` give the rest of its meaning |
| `Wilhelm.EditDocument` | experiments/customize_wilhelm.py:52-70 | the material loop over `gltf.get('materials', [])` and the `extras` assignment compute `EditedDocument` |
| `Wilhelm.EditedDocumentFails` | experiments/customize_wilhelm.py:52-61 | the edit fails exactly when the document is not an object (NotAnObject) or its `materials` cannot be iterated as rebrandable objects (BadMaterials) |
| `Wilhelm.EditedDocumentTopLevel` | experiments/customize_wilhelm.py:63-70 | after the edit `extras` is the branding block, `materials` is present exactly when it was, every other top-level entry is unchanged, and the top-level keys keep their order with `extras` appended at the end when it was new |
| `Wilhelm.EditedDocumentMaterials` | experiments/customize_wilhelm.py:52-61 | the number of materials is unchanged and every material is named Wilhelm, has the emissive factor, and has `pbrMetallicRoughness` exactly when it had it |
| `Wilhelm.RebrandMaterialKeepsKeysUnique` | experiments/customize_wilhelm.py:53-61 | a material with unique keys, and its `pbrMetallicRoughness` dict, still have unique keys after rebranding |
| `Wilhelm.EditedDocumentKeepsKeysUnique` | experiments/customize_wilhelm.py:52-70 | a document with unique top-level keys still has unique top-level keys after the edit |
| `Glb.DeclaredLength` | experiments/customize_wilhelm.py:24-25 | the total length read from the header is below 2^32 |
| `Glb.ChunkAt` | experiments/customize_wilhelm.py:35-37 | a chunk's length and tag are the decoded header fields; its payload is the bytes after the header, never longer than declared and shorter only when the buffer ends first |
| `Glb.Walk` | experiments/customize_wilhelm.py:34-46 | the reference for the chunk loop: it can fail only with a short chunk header; `WalkTiles` (success) and `WalkFailsOnShortHeader` (failure) give the rest of its meaning |
| `Glb.ReadChunk` | experiments/customize_wilhelm.py:35-37 | the length, type and payload slice read at an offset are the chunk `ChunkAt` describes |
| `Glb.WalkChunks` | experiments/customize_wilhelm.py:28-46 | the loop fails where the walk meets a short chunk header, and otherwise returns the payloads of the last JSON and the last BIN chunk visited |
| `Glb.WalkTiles` | experiments/customize_wilhelm.py:34-46 | a successful walk starts at the given offset (12 in the routine), each chunk header is `8 + length` bytes after the previous one, every visited header lies between the start and the declared total and inside the buffer, and the walk stops at the first offset reaching the total |
| `Glb.WalkFailsOnShortHeader` | experiments/customize_wilhelm.py:35-36 | the walk fails only at a chunk header it actually reaches: the walk up to that offset succeeds and its last chunk ends exactly there, the offset is below the declared total, and the 8-byte header runs past the end of the buffer; so a walk whose every reached header fits succeeds |
| `Glb.TruncatedChunkIsAccepted` | experiments/customize_wilhelm.py:37 | a BIN chunk declaring 8 bytes with only 2 present is accepted with its 2-byte payload |
| `Glb.LastWithTag` | experiments/customize_wilhelm.py:39-44 | no payload is chosen exactly when no chunk carries the tag |
| `Glb.LastWithTagMeaning` | experiments/customize_wilhelm.py:39-44 | a chosen payload belongs to a chunk with the tag after which no chunk has it, so the last such chunk wins |
| `Glb.PaddingNeeded` | experiments/customize_wilhelm.py:77 | the padding count is below 4 and brings the length to a multiple of 4 |
| `Glb.PadJson` | experiments/customize_wilhelm.py:77-79 | the padded JSON is the encoded JSON followed only by spaces, and its length is the least multiple of 4 not below the encoded length |
| `Glb.GlbLayout` | experiments/customize_wilhelm.py:84-96 | the output layout: its length is 12 + 8 + JSON + 8 + BIN, it starts with the given magic and version, its total-length field equals its length, and the chunk walk reads exactly the JSON chunk and then the BIN chunk from it |
| `Glb.Rebuild` | experiments/customize_wilhelm.py:82-96 | the rebuild fails (TooLarge) exactly when the total length does not fit 32 bits; otherwise the output keeps the given magic and version, its total-length field equals its length 12 + 8 + JSON + 8 + BIN, and the chunk walk reads back exactly a JSON chunk with the padded JSON and then a BIN chunk with the BIN payload |
| `Glb.RebuiltReadsBack` | experiments/customize_wilhelm.py:88-96 | re-reading a rebuilt container selects the JSON and BIN payloads that were written |
| `Customize.CustomizeWilhelm` | experiments/customize_wilhelm.py:17-96 | the rewrite fails exactly when `RewriteParts` does, with its error, or with TooLarge when the rebuilt total does not fit 32 bits; when every step succeeds and the total fits it produces output, and the first 8 bytes are the input's, the total-length field equals the output length, and the output is exactly the JSON and BIN chunks of the rebuild |
| `Customize.RewriteParts` | experiments/customize_wilhelm.py:24-82 | the reference for everything before the rebuild, step by step: ShortHeader exactly when the buffer is under 12 bytes; otherwise the walk's error when the walk fails; NoJsonChunk when no JSON chunk was seen; MalformedJson when the last JSON payload does not decode; the edit's error when the document cannot be edited; and then success exactly when a BIN chunk was seen, NoBinChunk otherwise. A success holds the input's first 8 bytes and a JSON payload whose length is a multiple of 4 |
| `Customize.RewriteNeedsBothChunks` | experiments/customize_wilhelm.py:39-82 | a container without a JSON chunk fails with NoJsonChunk, and one without a BIN chunk is never rewritten |
| `Customize.RewritePartsMeaning` | experiments/customize_wilhelm.py:73-96 | a successful rewrite uses the input's magic and version, the payload of the last BIN chunk byte for byte, and a JSON payload that is the document of the last JSON chunk, edited, re-encoded and padded with spaces to a multiple of 4 |

## Left out

- Reading the input file, writing the output file and the console messages (experiments/customize_wilhelm.py:20-21, 99-105), and the hard-coded paths of `__main__` (lines 107-111): file I/O and printing. The routine takes and returns the bytes.
- UTF-8 decoding with `json.loads`, and `json.dumps` with compact separators then UTF-8 encoding (lines 49, 73): library code. They are the parameters `loads` (None where the library raises) and `dumps`; the model assumes nothing about them. Documents from `json.loads` have unique keys; `Lookup` and `Put` act on the first occurrence of a key, which is then the only one.
- Floating-point values: the colour and factor constants (lines 13-15, 56-61) are JSON number literals kept as their text; no arithmetic is done on them. CREAM and DARK_NAVY (lines 14-15) are never used by the routine.
- `json_chunk_start` and `json_chunk_length` (lines 30-31, 41-42) are assigned but never read, so they are not modelled.
- The image-generation clients in `experiments/` (HTTP requests, polling with sleeps, retries, downloads, command-line parsing): network and I/O glue outside this routine.
