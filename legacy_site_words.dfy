/** Domain-level keyword flags of the legacy DomainProcessor: the Site flag
    for words common across the domain (flagCommonSiteWords) and the
    SiteAdjacent flag for words that the pages linking to a page share with
    it (flagAdjacentSiteWords). */
module LegacySiteWords {
  import opened Common
  import opened WordFlags

  /** The name of an IndexBlock constant. Which blocks are of type PAGE_DATA
      is given by the caller as `isPageData`. */
  type IndexBlock = string

  /** One keyword of a block with its metadata. */
  datatype Keyword = Keyword(word: string, metadata: WordMetadata)

  /** A processed document: `words` is null for documents that were not
      fully processed. */
  datatype ProcessedDocument = ProcessedDocument(
    url: Option<string>,
    stateReason: Option<string>,
    quality: Option<real>,
    words: Option<map<IndexBlock, seq<Keyword>>>)

  /** setFlagOnMetadataForWords on one block: OR the flag onto every keyword in `words`. */
  function FlagWordsInBlock(block: seq<Keyword>, flag: WordFlag, words: set<string>): (r: seq<Keyword>)
    ensures |r| == |block|
    ensures forall k :: 0 <= k < |block| ==>
      r[k].word == block[k].word
      && r[k].metadata.tfIdf == block[k].metadata.tfIdf
      && r[k].metadata.positions == block[k].metadata.positions
      && r[k].metadata.flags == block[k].metadata.flags + (if block[k].word in words then {flag} else {})
  {
    seq(|block|, k requires 0 <= k < |block| =>
      if block[k].word in words then block[k].(metadata := WithFlag(block[k].metadata, flag)) else block[k])
  }

  /** The flag applied to every PAGE_DATA block of a document's word set;
      other blocks, and every other field, are left alone. */
  function FlagDocument(doc: ProcessedDocument, flag: WordFlag, words: set<string>,
                        isPageData: IndexBlock -> bool): (r: ProcessedDocument)
    ensures r.url == doc.url && r.stateReason == doc.stateReason && r.quality == doc.quality
    ensures r.words.Some? <==> doc.words.Some?
    ensures doc.words.Some? ==> r.words.value.Keys == doc.words.value.Keys
    ensures doc.words.Some? ==> forall b :: b in doc.words.value && !isPageData(b) ==> r.words.value[b] == doc.words.value[b]
    ensures doc.words.Some? ==> forall b :: b in doc.words.value && isPageData(b) ==>
      r.words.value[b] == FlagWordsInBlock(doc.words.value[b], flag, words)
  {
    match doc.words
    case None => doc
    case Some(blocks) =>
      doc.(words := Some(map b | b in blocks :: if isPageData(b) then FlagWordsInBlock(blocks[b], flag, words) else blocks[b]))
  }

  /** A keyword of a flagged document carries the flag afterwards exactly when
      it carried it before or it sits in a PAGE_DATA block and is one of the
      chosen words; nothing else about it changes. */
  lemma FlagDocumentIsOrMerge(doc: ProcessedDocument, flag: WordFlag, words: set<string>,
                              isPageData: IndexBlock -> bool, b: IndexBlock, k: int)
    requires doc.words.Some? && b in doc.words.value && 0 <= k < |doc.words.value[b]|
    ensures var before := doc.words.value[b][k];
            var after := FlagDocument(doc, flag, words, isPageData).words.value[b][k];
            after.word == before.word
            && after.metadata.tfIdf == before.metadata.tfIdf && after.metadata.positions == before.metadata.positions
            && (forall f :: f != flag ==> (f in after.metadata.flags <==> f in before.metadata.flags))
            && (flag in after.metadata.flags <==> flag in before.metadata.flags || (isPageData(b) && before.word in words))
  {
  }

  /** Flagging with an empty word set changes nothing. */
  lemma FlagWithNoWordsIsIdentity(doc: ProcessedDocument, flag: WordFlag, isPageData: IndexBlock -> bool)
    ensures FlagDocument(doc, flag, {}, isPageData) == doc
  {
    if doc.words.Some? {
      var blocks := doc.words.value;
      var flagged := FlagDocument(doc, flag, {}, isPageData).words.value;
      forall b | b in blocks ensures flagged[b] == blocks[b] {
        if isPageData(b) {
          assert FlagWordsInBlock(blocks[b], flag, {}) == blocks[b];
        }
      }
      assert flagged == blocks;
    }
  }

  // ---------------------------------------------------------------------
  // Adjacent site words

  /** InternalLinkGraph.getKeywords: the keywords of a linking page (none when unknown). */
  function KeywordsOf(keywords: map<string, seq<string>>, url: string): seq<string> {
    if url in keywords then keywords[url] else []
  }

  /** InternalLinkGraph.getCandidateKeywords: the candidate keywords of a page (none when unknown). */
  function CandidatesOf(candidates: map<string, set<string>>, url: string): set<string> {
    if url in candidates then candidates[url] else {}
  }

  /** Every keyword occurrence contributed by the linking pages, with multiplicity. */
  function Occurrences(linkingUrls: seq<string>, keywords: map<string, seq<string>>): multiset<string> {
    if linkingUrls == [] then multiset{}
    else Occurrences(linkingUrls[..|linkingUrls| - 1], keywords) + multiset(KeywordsOf(keywords, linkingUrls[|linkingUrls| - 1]))
  }

  /** The keywords flagged SiteAdjacent on a page: counted more than three
      times among its linking pages' keywords, and one of its own candidates. */
  function AdjacentKeywords(url: string, linkingUrls: seq<string>, keywords: map<string, seq<string>>,
                            candidates: map<string, set<string>>): (r: set<string>)
    ensures forall k :: k in r <==> Occurrences(linkingUrls, keywords)[k] > 3 && k in CandidatesOf(candidates, url)
  {
    var occ := Occurrences(linkingUrls, keywords);
    set k | k in occ && occ[k] > 3 && k in CandidatesOf(candidates, url)
  }

  /** linkedKeywords: the pages of the inverted graph that get at least one adjacent keyword. */
  function LinkedKeywords(inverted: map<string, seq<string>>, keywords: map<string, seq<string>>,
                          candidates: map<string, set<string>>): (r: map<string, set<string>>)
    ensures forall u :: u in r <==> u in inverted && AdjacentKeywords(u, inverted[u], keywords, candidates) != {}
    ensures forall u :: u in r ==> r[u] == AdjacentKeywords(u, inverted[u], keywords, candidates)
  {
    map u | u in inverted && AdjacentKeywords(u, inverted[u], keywords, candidates) != {}
      :: AdjacentKeywords(u, inverted[u], keywords, candidates)
  }

  /** How many of the linking pages list the keyword. */
  function PagesListing(linkingUrls: seq<string>, keywords: map<string, seq<string>>, k: string): nat {
    if linkingUrls == [] then 0
    else PagesListing(linkingUrls[..|linkingUrls| - 1], keywords, k)
         + (if k in KeywordsOf(keywords, linkingUrls[|linkingUrls| - 1]) then 1 else 0)
  }

  /** When no page lists a keyword twice, the count compared with 3 is the
      number of linking pages that list it. */
  lemma {:induction false} OccurrencesCountPages(linkingUrls: seq<string>, keywords: map<string, seq<string>>, k: string)
    requires forall u :: u in keywords ==> forall i, j :: 0 <= i < j < |keywords[u]| ==> keywords[u][i] != keywords[u][j]
    ensures Occurrences(linkingUrls, keywords)[k] == PagesListing(linkingUrls, keywords, k)
  {
    if linkingUrls != [] {
      var n := |linkingUrls| - 1;
      OccurrencesCountPages(linkingUrls[..n], keywords, k);
      var ws := KeywordsOf(keywords, linkingUrls[n]);
      DistinctMultiplicity(ws, k);
    }
  }

  lemma {:induction false} DistinctMultiplicity(ws: seq<string>, k: string)
    requires forall i, j :: 0 <= i < j < |ws| ==> ws[i] != ws[j]
    ensures multiset(ws)[k] == if k in ws then 1 else 0
  {
    if ws != [] {
      assert ws == [ws[0]] + ws[1..];
      DistinctMultiplicity(ws[1..], k);
      if ws[0] == k {
        assert k !in ws[1..];
      }
    }
  }

  /** The map holds, for each keyword, its multiplicity in `occ`. */
  ghost predicate Tallies(counts: map<string, nat>, occ: multiset<string>) {
    (forall k :: k in counts <==> k in occ) && (forall k :: k in counts ==> counts[k] == occ[k])
  }

  /** One merge(keyword, 1, Integer::sum). */
  lemma MergeOne(counts: map<string, nat>, occ: multiset<string>, k: string)
    requires Tallies(counts, occ)
    ensures Tallies(counts[k := (if k in counts then counts[k] else 0) + 1], occ + multiset{k})
  {
  }

  lemma OccurrencesStep(linkingUrls: seq<string>, keywords: map<string, seq<string>>, i: int)
    requires 0 <= i < |linkingUrls|
    ensures Occurrences(linkingUrls[..i + 1], keywords)
            == Occurrences(linkingUrls[..i], keywords) + multiset(KeywordsOf(keywords, linkingUrls[i]))
  {
    assert linkingUrls[..i + 1][..i] == linkingUrls[..i];
  }

  /** The inner loop: merge one linking page's keywords into the counts. */
  method MergeKeywords(counts: map<string, nat>, ghost occ: multiset<string>, ws: seq<string>)
    returns (merged: map<string, nat>)
    requires Tallies(counts, occ)
    ensures Tallies(merged, occ + multiset(ws))
  {
    merged := counts;
    ghost var acc := occ;
    var j := 0;
    while j < |ws|
      invariant 0 <= j <= |ws|
      invariant acc == occ + multiset(ws[..j])
      invariant Tallies(merged, acc)
    {
      var k := ws[j];
      MergeOne(merged, acc, k);
      merged := merged[k := (if k in merged then merged[k] else 0) + 1];
      acc := acc + multiset{k};
      assert ws[..j + 1] == ws[..j] + [k];
      j := j + 1;
    }
    assert ws[..j] == ws;
  }

  /** The HashMap of keyword counts for one page, built with merge(keyword, 1, sum). */
  method CountLinkedKeywords(linkingUrls: seq<string>, keywords: map<string, seq<string>>)
    returns (counts: map<string, nat>)
    ensures forall k :: k in counts <==> k in Occurrences(linkingUrls, keywords)
    ensures forall k :: k in counts ==> counts[k] == Occurrences(linkingUrls, keywords)[k]
  {
    counts := map[];
    var i := 0;
    while i < |linkingUrls|
      invariant 0 <= i <= |linkingUrls|
      invariant Tallies(counts, Occurrences(linkingUrls[..i], keywords))
    {
      counts := MergeKeywords(counts, Occurrences(linkingUrls[..i], keywords), KeywordsOf(keywords, linkingUrls[i]));
      OccurrencesStep(linkingUrls, keywords, i);
      i := i + 1;
    }
    assert linkingUrls[..i] == linkingUrls;
  }

  /** The words kept for one page: counted more than three times, and candidates. */
  function KeptWords(counts: map<string, nat>, pageCandidates: set<string>): (r: set<string>)
    ensures forall k :: k in r <==> k in counts && counts[k] > 3 && k in pageCandidates
  {
    set k | k in counts && counts[k] > 3 && k in pageCandidates
  }

  /** The words kept from a page's tallied keyword counts are its adjacent keywords. */
  lemma KeptWordsAreAdjacent(url: string, linkingUrls: seq<string>, keywords: map<string, seq<string>>,
                             candidates: map<string, set<string>>, counts: map<string, nat>)
    requires Tallies(counts, Occurrences(linkingUrls, keywords))
    ensures KeptWords(counts, CandidatesOf(candidates, url)) == AdjacentKeywords(url, linkingUrls, keywords, candidates)
  {
  }

  /** The forEach over the inverted link graph that builds linkedKeywords. */
  method CollectLinkedKeywords(inverted: map<string, seq<string>>, keywords: map<string, seq<string>>,
                               candidates: map<string, set<string>>)
    returns (linked: map<string, set<string>>)
    ensures linked == LinkedKeywords(inverted, keywords, candidates)
  {
    linked := map[];
    var remaining := inverted.Keys;
    while remaining != {}
      invariant remaining <= inverted.Keys
      invariant forall u :: u in linked <==> u in inverted && u !in remaining && AdjacentKeywords(u, inverted[u], keywords, candidates) != {}
      invariant forall u :: u in linked ==> linked[u] == AdjacentKeywords(u, inverted[u], keywords, candidates)
      decreases |remaining|
    {
      var url :| url in remaining;
      var counts := CountLinkedKeywords(inverted[url], keywords);
      var words := KeptWords(counts, CandidatesOf(candidates, url));
      KeptWordsAreAdjacent(url, inverted[url], keywords, candidates, counts);
      if words != {} {
        linked := linked[url := words];
      }
      remaining := remaining - {url};
    }
    ghost var spec := LinkedKeywords(inverted, keywords, candidates);
    assert forall u :: u in linked <==> u in spec;
  }

  /** The flagging step of flagAdjacentSiteWords for one document. */
  function FlagAdjacent(doc: ProcessedDocument, linked: map<string, set<string>>,
                        isPageData: IndexBlock -> bool): ProcessedDocument {
    if doc.words.None? || doc.url.None? || doc.url.value !in linked then doc
    else FlagDocument(doc, SiteAdjacent, linked[doc.url.value], isPageData)
  }

  /** A keyword of a document ends with the SiteAdjacent flag exactly when it
      had it, or the document has words, the keyword is in a PAGE_DATA block,
      it occurs more than three times among the keywords of the pages linking
      to the document, and it is one of the document's candidates. */
  lemma FlagAdjacentCharacterized(doc: ProcessedDocument, inverted: map<string, seq<string>>,
                                  keywords: map<string, seq<string>>, candidates: map<string, set<string>>,
                                  isPageData: IndexBlock -> bool, b: IndexBlock, k: int)
    requires doc.words.Some? && b in doc.words.value && 0 <= k < |doc.words.value[b]|
    ensures var linked := LinkedKeywords(inverted, keywords, candidates);
            var after := FlagAdjacent(doc, linked, isPageData);
            var w := doc.words.value[b][k];
            after.words.Some? && b in after.words.value && |after.words.value[b]| == |doc.words.value[b]|
            && (SiteAdjacent in after.words.value[b][k].metadata.flags
                <==> SiteAdjacent in w.metadata.flags
                     || (isPageData(b) && doc.url.Some? && doc.url.value in inverted
                         && Occurrences(inverted[doc.url.value], keywords)[w.word] > 3
                         && w.word in CandidatesOf(candidates, doc.url.value)))
  {
    var linked := LinkedKeywords(inverted, keywords, candidates);
    if doc.url.Some? && doc.url.value in linked {
      FlagDocumentIsOrMerge(doc, SiteAdjacent, linked[doc.url.value], isPageData, b, k);
    } else if doc.url.Some? && doc.url.value in inverted {
      assert AdjacentKeywords(doc.url.value, inverted[doc.url.value], keywords, candidates) == {};
    }
  }
}
