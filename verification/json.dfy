/** JSON serialisation, as an encode/decode pair. */
module Json {
  import opened Wrappers

  /**
   * `decode` gives None for text that does not denote a value of T (text that
   * is not JSON of that shape, or the literal null).
   */
  datatype Codec<!T> = Codec(encode: T -> string, decode: string -> Option<T>)

  /** Decoding what was encoded gives the value back; no value encodes to empty text. */
  ghost predicate Lossless<T(!new)>(json: Codec<T>)
  {
    forall x :: json.decode(json.encode(x)) == Some(x) && json.encode(x) != []
  }
}
