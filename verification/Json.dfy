/** The values that requests and replies carry, and the codec that turns them into message bodies. */
module Json {
  import opened Wrappers

  datatype Json =
    | Null
    | Bool(value: bool)
    | Number(number: int)
    | Text(text: string)
    | Array(items: seq<Json>)
    | Object(fields: seq<(string, Json)>)

  predicate Empty(j: Json) {
    j.Null? || (j.Array? && j.items == []) || (j.Object? && j.fields == [])
  }

  type Body = seq<char>

  /** The message encoding, which is foreign: any pair of functions. Decoding may fail. */
  datatype Codec = Codec(encode: Json -> Body, decode: Body -> Option<Json>)

  /** What is sent is what is read. Nothing is said about bodies that were never encoded. */
  ghost predicate Lossless(codec: Codec) {
    forall j :: codec.decode(codec.encode(j)) == Some(j)
  }
}
