/** The wire format between the host and the page.  Both sides speak JSON
    (`json.dumps`/`json.loads` on the host, `JSON.stringify`/`JSON.parse`
    in the page); the text encoding itself is not modelled.  A codec is a
    pair of an encoder and a partial decoder, and `Lawful` states the facts
    about JSON that the bridge relies on. */
module Json {
  import opened Wrappers
  import opened Values

  /** An encoder to JSON text and a decoder that fails (`None`) on text
      that is not JSON. */
  datatype Codec = Codec(dumps: Value -> string, loads: string -> Option<Value>)

  /** JSON's encoding of `None` is the text `null`, decoding undoes
      encoding, and no encoding is the empty text. */
  ghost predicate Lawful(c: Codec) {
    && c.dumps(Null) == "null"
    && (forall v :: c.loads(c.dumps(v)) == Some(v))
    && (forall v :: c.dumps(v) != "")
  }
}
