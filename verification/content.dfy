/** The identity of a chunk: its source and its text, as the fusion and the content hash both take it. */
module Content {
  import opened Structured

  function ContentKey(source: string, text: string): string {
    source + "\0" + text
  }

  function Before(s: string): string {
    if s == "" || s[0] == '\0' then "" else [s[0]] + Before(s[1..])
  }

  lemma {:induction false} SourceOfKey(source: string, text: string)
    requires '\0' !in source
    ensures Before(ContentKey(source, text)) == source
  {
    if source != "" {
      SourceOfKey(source[1..], text);
      assert ContentKey(source, text)[1..] == ContentKey(source[1..], text);
    }
  }

  /** No path holds a NUL, so the content a hash is taken of names the chunk. */
  lemma KeyNamesChunk(c: Chunk, d: Chunk)
    requires '\0' !in c.source && '\0' !in d.source && ContentKey(c.source, c.text) == ContentKey(d.source, d.text)
    ensures c == d
  {
    SourceOfKey(c.source, c.text);
    SourceOfKey(d.source, d.text);
    assert ContentKey(c.source, c.text)[|c.source| + 1..] == c.text;
    assert ContentKey(d.source, d.text)[|d.source| + 1..] == d.text;
  }
}
