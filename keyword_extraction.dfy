/** KeywordMetadata.getMetadataForWord: the flags a stemmed word earns from
    the keyword extractors of one document, packed with its tf-idf value and
    position bitmask. */
module KeywordExtraction {
  import opened WordFlags

  /** The extractor results one document's keywords are judged against. The
      tf-idf counter and the position bitmask are lookups whose internals are
      not part of this model; the keyword sets are membership tests. */
  datatype KeywordMetadata = KeywordMetadata(
    bitmask: string -> int,
    titleKeywords: set<string>,
    nameLikeKeywords: set<string>,
    subjectLikeKeywords: set<string>,
    urlPathKeywords: set<string>,
    urlDomainKeywords: set<string>,
    tfIdf: string -> int)
  {
    /** When each flag belongs to a word, flag by flag. Site and SiteAdjacent
        are domain-level signals and never come from a single document. */
    predicate Earns(f: WordFlag, stemmed: string) {
      match f
      case TfIdfHigh => tfIdf(stemmed) > 100
      case Subjects => stemmed in subjectLikeKeywords
      case NamesWords => stemmed in nameLikeKeywords
      case Title => stemmed in titleKeywords
      case UrlPath => stemmed in urlPathKeywords
      case UrlDomain => stemmed in urlDomainKeywords
      case Site => false
      case SiteAdjacent => false
    }

    /** The EnumSet built by the independent tests of getMetadataForWord. */
    function FlagsForWord(stemmed: string): (flags: set<WordFlag>)
      ensures forall f :: f in flags <==> Earns(f, stemmed)
      ensures flags <= {TfIdfHigh, Subjects, NamesWords, Title, UrlPath, UrlDomain}
    {
      (if tfIdf(stemmed) > 100 then {TfIdfHigh} else {})
      + (if stemmed in subjectLikeKeywords then {Subjects} else {})
      + (if stemmed in nameLikeKeywords then {NamesWords} else {})
      + (if stemmed in titleKeywords then {Title} else {})
      + (if stemmed in urlPathKeywords then {UrlPath} else {})
      + (if stemmed in urlDomainKeywords then {UrlDomain} else {})
    }

    /** The WordMetadata record handed to encode(): the tf-idf value and the
        positions are passed through as the lookups return them. */
    function MetadataRecordForWord(stemmed: string): (m: WordMetadata)
      ensures m.tfIdf == tfIdf(stemmed) && m.positions == bitmask(stemmed)
      ensures TfIdfHigh in m.flags <==> m.tfIdf > 100
      ensures Site !in m.flags && SiteAdjacent !in m.flags
      ensures forall f :: f in m.flags <==> Earns(f, stemmed)
    {
      WordMetadata(tfIdf(stemmed), bitmask(stemmed), FlagsForWord(stemmed))
    }

    /** getMetadataForWord, with WordMetadata.encode as the given packing. */
    function GetMetadataForWord(stemmed: string, encode: WordMetadata -> int): (r: int)
      ensures r == encode(WordMetadata(tfIdf(stemmed), bitmask(stemmed), FlagsForWord(stemmed)))
    {
      encode(MetadataRecordForWord(stemmed))
    }
  }
}
