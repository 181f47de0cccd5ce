/** Failure-carrying results shared by the model of the GLB rewriter. */
module Outcome {

  datatype Option<+T> = None | Some(value: T)

  datatype Result<+T> = Ok(value: T) | Err(error: Error)

  /** One constructor per way `customize_wilhelm` can raise, in the order the
      code can reach them. */
  datatype Error =
    | ShortHeader                     // struct.unpack('<4sII') of fewer than 12 bytes
    | ShortChunkHeader(offset: nat)   // struct.unpack('<I4s') of fewer than 8 bytes at `offset`
    | NoJsonChunk                     // no JSON chunk seen: `None.decode` raises
    | MalformedJson                   // UTF-8 decoding or json.loads rejects the payload
    | NotAnObject                     // the document is not a JSON object: `.get` raises
    | BadMaterials                    // `materials` cannot be iterated as a list of objects
    | NoBinChunk                      // no BIN chunk seen: `len(None)` raises
    | TooLarge                        // struct.pack('<I') of a total length >= 2^32
}
