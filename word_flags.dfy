/** Per-word metadata as the converter hands it to the index: the raw tf-idf
    value, the position bitmask and a set of flags. The index's bit layout
    for packing these into one long is not part of this model. */
module WordFlags {

  /** The word flags the converter sets (WordFlags / EdgePageWordFlags). */
  datatype WordFlag = Title | Subjects | NamesWords | Site | SiteAdjacent | UrlDomain | UrlPath | TfIdfHigh

  /** The unpacked form of a word's metadata. */
  datatype WordMetadata = WordMetadata(tfIdf: int, positions: int, flags: set<WordFlag>)

  /** Setting one flag bit: OR-ing it onto the packed value keeps every other
      field and flag. */
  function WithFlag(m: WordMetadata, f: WordFlag): (r: WordMetadata)
    ensures r.tfIdf == m.tfIdf && r.positions == m.positions
    ensures f in r.flags && m.flags <= r.flags && r.flags - {f} == m.flags - {f}
  {
    m.(flags := m.flags + {f})
  }
}
