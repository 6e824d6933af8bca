/** A Simple English Wikipedia article as it comes out of the corpus:
    one JSON object per line, deserialised into three properties. */
module Wiki {

  /** The article's key, its title and its paragraphs in reading order.
      A property absent from the line keeps its empty default. A property
      given as an explicit JSON `null` would make it null, which this record
      does not represent. */
  datatype Document = Document(id: string, title: string, paragraphs: seq<string>)

  /** What deserialising one corpus line gives: `null` or an article. */
  datatype Option<T> = None | Some(value: T)
}
