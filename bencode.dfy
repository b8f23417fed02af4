/**
 * The decoded form of a bencoded value, as the `./bencode` package hands it
 * to the tracker client (its `BeNode`, tagged by `Betype`). The byte-stream
 * decoder itself is not part of this model: the tracker client is given the
 * decoded tree.
 */
module Bencode {
  import opened ByteStrings

  datatype Node =
    | Str(bytes: Bytes)                  // Bestr
    | Int(value: int)                    // an integer node
    | List(items: seq<Node>)             // Belist
    | Dict(entries: map<Bytes, Node>)    // Bedict, keyed by byte strings
}
