/** The legacy DomainProcessor.process: one crawled domain becomes one
    processed domain. The crawled documents are repaired in place, handed
    one by one to the document processor, the processed documents that have
    a URL are kept in crawl order, and the domain-level Site and
    SiteAdjacent flags are set on their keywords. */
module LegacyDomainProcessor {
  import opened Common
  import opened CrawlerStatus
  import opened CanonicalRepair
  import opened WordFlags
  import opened LegacySiteWords

  /** The crawled domain's own fields (its document list is passed beside it). */
  datatype CrawledDomain = CrawledDomain(
    domain: string,
    ip: Option<string>,
    redirectDomain: Option<string>,
    crawlerStatus: string)

  /** InternalLinkGraph after trimAndInvert: page -> pages linking to it,
      linking page -> its keywords, page -> its candidate keywords. */
  datatype LinkGraph = LinkGraph(
    inverted: map<string, seq<string>>,
    keywords: map<string, seq<string>>,
    candidates: map<string, set<string>>)

  /** The collaborators whose bodies are not part of this model, as functions:
      DocumentProcessor.process and makeDisqualifiedStub, the link graph built
      by accepting the kept documents, CommonKeywordExtractor.getCommonSiteWords
      over the given blocks, which IndexBlocks are of type PAGE_DATA, and the
      domain of EdgeUrl.parse. */
  datatype Collaborators = Collaborators(
    processDocument: (CrawledDocument, CrawledDomain) -> ProcessedDocument,
    makeDisqualifiedStub: CrawledDocument -> ProcessedDocument,
    linkGraph: seq<ProcessedDocument> -> LinkGraph,
    commonSiteWords: (seq<ProcessedDocument>, seq<IndexBlock>) -> set<string>,
    isPageData: IndexBlock -> bool,
    domainOf: Option<string> -> Option<string>)

  /** The quality penalty offered for a document rejected for its language. */
  const LanguagePenalty: real := -100.0

  /** DocumentDisqualifier: how many qualities were offered, and how many of
      them beat the domain's minimum average quality. */
  class DocumentDisqualifier {
    const minAvgDocumentQuality: real
    var count: int
    var goodCount: int

    ghost predicate Valid()
      reads this
    {
      0 <= goodCount <= count
    }

    constructor (minAvgDocumentQuality: real)
      ensures this.minAvgDocumentQuality == minAvgDocumentQuality
      ensures count == 0 && goodCount == 0 && Valid()
    {
      this.minAvgDocumentQuality := minAvgDocumentQuality;
      count := 0;
      goodCount := 0;
    }

    /** Every offer is counted; it is good only when strictly above the minimum. */
    method Offer(quality: real)
      requires Valid()
      modifies this
      ensures Valid()
      ensures count == old(count) + 1
      ensures goodCount == old(goodCount) + (if quality > minAvgDocumentQuality then 1 else 0)
    {
      count := count + 1;
      if quality > minAvgDocumentQuality {
        goodCount := goodCount + 1;
      }
    }

    /** The qualification policy is switched off: every document qualifies,
        whatever has been offered so far. */
    predicate IsQualified(): (q: bool)
      reads this
      ensures q
    {
      true
    }
  }

  /** The processed domain that process fills in. */
  class ProcessedDomain {
    var domain: string
    var ip: Option<string>
    var redirect: Option<string>
    var documents: seq<ProcessedDocument>
    var state: Option<DomainIndexingState>

    constructor (domain: string, ip: Option<string>)
      ensures this.domain == domain && this.ip == ip
      ensures redirect.None? && documents == [] && state.None?
    {
      this.domain := domain;
      this.ip := ip;
      redirect := None;
      documents := [];
      state := None;
    }
  }

  // ---------------------------------------------------------------------
  // The documents kept by the processing loop

  /** What the loop keeps of one crawled document: its processed form, when
      that has a URL. (The short-circuit stub is never made, because every
      document qualifies.) */
  function Kept(doc: CrawledDocument, crawled: CrawledDomain, env: Collaborators): seq<ProcessedDocument> {
    var p := env.processDocument(doc, crawled);
    if p.url.Some? then [p] else []
  }

  /** The kept documents of a document list, in list order. */
  function KeptDocuments(docs: seq<CrawledDocument>, crawled: CrawledDomain, env: Collaborators): (r: seq<ProcessedDocument>)
    ensures |r| <= |docs|
    ensures forall k :: 0 <= k < |r| ==> r[k].url.Some?
  {
    if docs == [] then []
    else KeptDocuments(docs[..|docs| - 1], crawled, env) + Kept(docs[|docs| - 1], crawled, env)
  }

  /** Keeping distributes over concatenation: the kept documents of a list
      are those of its first part followed by those of the rest. */
  lemma {:induction false} KeptDocumentsAppend(a: seq<CrawledDocument>, b: seq<CrawledDocument>,
                                               crawled: CrawledDomain, env: Collaborators)
    ensures KeptDocuments(a + b, crawled, env) == KeptDocuments(a, crawled, env) + KeptDocuments(b, crawled, env)
  {
    if b == [] {
      assert a + b == a;
    } else {
      var n := |b| - 1;
      assert (a + b)[..|a + b| - 1] == a + b[..n];
      assert (a + b)[|a + b| - 1] == b[n];
      KeptDocumentsAppend(a, b[..n], crawled, env);
    }
  }

  /** A crawled document whose processed form has a URL is kept. */
  lemma {:induction false} KeptDocumentsKeepEveryUrl(docs: seq<CrawledDocument>, crawled: CrawledDomain,
                                                     env: Collaborators, i: int)
    requires 0 <= i < |docs| && env.processDocument(docs[i], crawled).url.Some?
    ensures env.processDocument(docs[i], crawled) in KeptDocuments(docs, crawled, env)
  {
    assert docs == docs[..i] + [docs[i]] + docs[i + 1..];
    KeptDocumentsAppend(docs[..i] + [docs[i]], docs[i + 1..], crawled, env);
    KeptDocumentsAppend(docs[..i], [docs[i]], crawled, env);
    assert [docs[i]][..0] == [];
  }

  /** The quality the loop offers to the disqualifier for one document, if any. */
  function Offered(doc: CrawledDocument, crawled: CrawledDomain, env: Collaborators): seq<real> {
    var p := env.processDocument(doc, crawled);
    if p.url.Some? then (if p.quality.Some? then [p.quality.value] else [])
    else if p.stateReason == Some("LANGUAGE") then [LanguagePenalty]
    else []
  }

  /** Every quality offered while processing the list, in order. */
  function Offers(docs: seq<CrawledDocument>, crawled: CrawledDomain, env: Collaborators): seq<real> {
    if docs == [] then []
    else Offers(docs[..|docs| - 1], crawled, env) + Offered(docs[|docs| - 1], crawled, env)
  }

  /** How many of the offered qualities are strictly above the minimum. */
  function CountAbove(qs: seq<real>, min: real): nat {
    if qs == [] then 0
    else CountAbove(qs[..|qs| - 1], min) + (if qs[|qs| - 1] > min then 1 else 0)
  }

  /** One more offer adds one to the good count exactly when it beats the minimum. */
  lemma CountAboveStep(qs: seq<real>, q: real, min: real)
    ensures CountAbove(qs + [q], min) == CountAbove(qs, min) + (if q > min then 1 else 0)
  {
    assert (qs + [q])[..|qs|] == qs;
  }

  /** One more crawled document extends the offers and the kept documents by its own. */
  lemma ProcessingStep(docs: seq<CrawledDocument>, i: int, crawled: CrawledDomain, env: Collaborators)
    requires 0 <= i < |docs|
    ensures Offers(docs[..i + 1], crawled, env) == Offers(docs[..i], crawled, env) + Offered(docs[i], crawled, env)
    ensures KeptDocuments(docs[..i + 1], crawled, env) == KeptDocuments(docs[..i], crawled, env) + Kept(docs[i], crawled, env)
  {
    assert docs[..i + 1][..i] == docs[..i];
  }

  /** Never more good offers than offers. */
  lemma {:induction false} CountAboveAtMostOffers(qs: seq<real>, min: real)
    ensures CountAbove(qs, min) <= |qs|
    ensures CountAbove(qs, min) == |qs| <==> forall k :: 0 <= k < |qs| ==> qs[k] > min
  {
    if qs != [] {
      CountAboveAtMostOffers(qs[..|qs| - 1], min);
      assert forall k :: 0 <= k < |qs| - 1 ==> qs[..|qs| - 1][k] == qs[k];
    }
  }

  // ---------------------------------------------------------------------
  // The domain-level flags

  /** The block lists handed to getCommonSiteWords. */
  const TfidfHighAndSubjects: seq<IndexBlock> := ["Tfidf_High", "Subjects"]
  const TitleBlock: seq<IndexBlock> := ["Title"]

  /** The union of both getCommonSiteWords results. */
  function SiteWordsOf(documents: seq<ProcessedDocument>, env: Collaborators): set<string> {
    env.commonSiteWords(documents, TfidfHighAndSubjects) + env.commonSiteWords(documents, TitleBlock)
  }

  /** flagCommonSiteWords on the document list: nothing when no word is
      common, otherwise the Site flag on the common words of PAGE_DATA blocks.
      The early return is the same as flagging with no words. */
  function CommonFlagged(documents: seq<ProcessedDocument>, words: set<string>, isPageData: IndexBlock -> bool)
    : (r: seq<ProcessedDocument>)
    ensures |r| == |documents|
    ensures forall i :: 0 <= i < |r| ==> r[i] == FlagDocument(documents[i], Site, words, isPageData)
  {
    if words == {} then
      assert forall i :: 0 <= i < |documents| ==> FlagDocument(documents[i], Site, words, isPageData) == documents[i] by {
        forall i | 0 <= i < |documents| {
          FlagWithNoWordsIsIdentity(documents[i], Site, isPageData);
        }
      }
      documents
    else seq(|documents|, i requires 0 <= i < |documents| => FlagDocument(documents[i], Site, words, isPageData))
  }

  /** The flagging loop of flagAdjacentSiteWords on the document list. */
  function AdjacentFlagged(documents: seq<ProcessedDocument>, linked: map<string, set<string>>,
                           isPageData: IndexBlock -> bool): (r: seq<ProcessedDocument>)
    ensures |r| == |documents|
    ensures forall i :: 0 <= i < |r| ==> r[i] == FlagAdjacent(documents[i], linked, isPageData)
  {
    seq(|documents|, i requires 0 <= i < |documents| => FlagAdjacent(documents[i], linked, isPageData))
  }

  /** The documents of the processed domain: the kept documents, flagged Site
      and then SiteAdjacent. */
  function DomainDocuments(docs: seq<CrawledDocument>, crawled: CrawledDomain, env: Collaborators): seq<ProcessedDocument> {
    var kept := KeptDocuments(docs, crawled, env);
    var graph := env.linkGraph(kept);
    AdjacentFlagged(CommonFlagged(kept, SiteWordsOf(kept, env), env.isPageData),
                    LinkedKeywords(graph.inverted, graph.keywords, graph.candidates), env.isPageData)
  }

  /** The flag passes keep every document where it is and change only the
      PAGE_DATA blocks of documents that have words. */
  lemma DomainDocumentsFlagOnlyPageData(docs: seq<CrawledDocument>, crawled: CrawledDomain, env: Collaborators, i: int)
    requires 0 <= i < |KeptDocuments(docs, crawled, env)|
    ensures var kept := KeptDocuments(docs, crawled, env)[i];
            var final := DomainDocuments(docs, crawled, env);
            |final| == |KeptDocuments(docs, crawled, env)|
            && final[i].url == kept.url && final[i].url.Some?
            && final[i].stateReason == kept.stateReason && final[i].quality == kept.quality
            && (kept.words.None? ==> final[i] == kept)
            && (kept.words.Some? ==>
                  final[i].words.Some? && final[i].words.value.Keys == kept.words.value.Keys
                  && forall b :: b in kept.words.value && !env.isPageData(b) ==> final[i].words.value[b] == kept.words.value[b])
  {
  }

  /** After process, a keyword of a kept document carries Site exactly when it
      did before or it sits in a PAGE_DATA block and is a common site word;
      it carries SiteAdjacent exactly when it did before or it sits in a
      PAGE_DATA block, occurs more than three times among the keywords of the
      pages linking to the document, and is one of the document's candidates. */
  lemma DomainDocumentsFlags(docs: seq<CrawledDocument>, crawled: CrawledDomain, env: Collaborators,
                             i: int, b: IndexBlock, k: int)
    requires 0 <= i < |KeptDocuments(docs, crawled, env)|
    requires var kept := KeptDocuments(docs, crawled, env)[i];
             kept.words.Some? && b in kept.words.value && 0 <= k < |kept.words.value[b]|
    ensures var kept := KeptDocuments(docs, crawled, env);
            var graph := env.linkGraph(kept);
            var final := DomainDocuments(docs, crawled, env);
            var w := kept[i].words.value[b][k];
            var after := final[i].words.value[b][k];
            |final| == |kept| && final[i].words.Some? && b in final[i].words.value
            && |final[i].words.value[b]| == |kept[i].words.value[b]|
            && after.word == w.word
            && (Site in after.metadata.flags
                <==> Site in w.metadata.flags || (env.isPageData(b) && w.word in SiteWordsOf(kept, env)))
            && (SiteAdjacent in after.metadata.flags
                <==> SiteAdjacent in w.metadata.flags
                     || (env.isPageData(b) && kept[i].url.value in graph.inverted
                         && Occurrences(graph.inverted[kept[i].url.value], graph.keywords)[w.word] > 3
                         && w.word in CandidatesOf(graph.candidates, kept[i].url.value)))
  {
    var kept := KeptDocuments(docs, crawled, env);
    var graph := env.linkGraph(kept);
    var common := CommonFlagged(kept, SiteWordsOf(kept, env), env.isPageData);
    var linked := LinkedKeywords(graph.inverted, graph.keywords, graph.candidates);
    FlagDocumentIsOrMerge(kept[i], Site, SiteWordsOf(kept, env), env.isPageData, b, k);
    FlagAdjacentCharacterized(common[i], graph.inverted, graph.keywords, graph.candidates, env.isPageData, b, k);
    if common[i].url.Some? && common[i].url.value in linked {
      FlagDocumentIsOrMerge(common[i], SiteAdjacent, linked[common[i].url.value], env.isPageData, b, k);
    }
  }

  /** flagCommonSiteWords */
  method FlagCommonSiteWords(pd: ProcessedDomain, env: Collaborators)
    modifies pd
    ensures pd.documents == CommonFlagged(old(pd.documents), SiteWordsOf(old(pd.documents), env), env.isPageData)
    ensures pd.domain == old(pd.domain) && pd.ip == old(pd.ip) && pd.redirect == old(pd.redirect) && pd.state == old(pd.state)
  {
    var commonSiteWords := env.commonSiteWords(pd.documents, TfidfHighAndSubjects)
                           + env.commonSiteWords(pd.documents, TitleBlock);
    if commonSiteWords == {} {
      return;
    }
    ghost var before := pd.documents;
    var i := 0;
    while i < |pd.documents|
      invariant 0 <= i <= |pd.documents| == |before|
      invariant forall j :: 0 <= j < i ==> pd.documents[j] == FlagDocument(before[j], Site, commonSiteWords, env.isPageData)
      invariant forall j :: i <= j < |before| ==> pd.documents[j] == before[j]
      invariant pd.domain == old(pd.domain) && pd.ip == old(pd.ip) && pd.redirect == old(pd.redirect) && pd.state == old(pd.state)
    {
      var doc := pd.documents[i];
      if doc.words.Some? {
        pd.documents := pd.documents[i := FlagDocument(doc, Site, commonSiteWords, env.isPageData)];
      }
      i := i + 1;
    }
    assert pd.documents == CommonFlagged(before, commonSiteWords, env.isPageData);
  }

  /** The flagging loop of flagAdjacentSiteWords: documents without words,
      or without linked keywords, are skipped. */
  method FlagLinkedDocuments(pd: ProcessedDomain, linkedKeywords: map<string, set<string>>, isPageData: IndexBlock -> bool)
    modifies pd
    ensures pd.documents == AdjacentFlagged(old(pd.documents), linkedKeywords, isPageData)
    ensures pd.domain == old(pd.domain) && pd.ip == old(pd.ip) && pd.redirect == old(pd.redirect) && pd.state == old(pd.state)
  {
    ghost var before := pd.documents;
    var i := 0;
    while i < |pd.documents|
      invariant 0 <= i <= |pd.documents| == |before|
      invariant forall j :: 0 <= j < i ==> pd.documents[j] == FlagAdjacent(before[j], linkedKeywords, isPageData)
      invariant forall j :: i <= j < |before| ==> pd.documents[j] == before[j]
      invariant pd.domain == old(pd.domain) && pd.ip == old(pd.ip) && pd.redirect == old(pd.redirect) && pd.state == old(pd.state)
    {
      var doc := pd.documents[i];
      if doc.words.None? || doc.url.None? || doc.url.value !in linkedKeywords {
        assert FlagAdjacent(doc, linkedKeywords, isPageData) == doc;
      } else {
        var flagged := FlagDocument(doc, SiteAdjacent, linkedKeywords[doc.url.value], isPageData);
        assert flagged == FlagAdjacent(before[i], linkedKeywords, isPageData);
        pd.documents := pd.documents[i := flagged];
      }
      i := i + 1;
    }
    assert pd.documents == AdjacentFlagged(before, linkedKeywords, isPageData);
  }

  /** flagAdjacentSiteWords, over the inverted link graph of the kept documents. */
  method FlagAdjacentSiteWords(graph: LinkGraph, pd: ProcessedDomain, isPageData: IndexBlock -> bool)
    modifies pd
    ensures pd.documents
            == AdjacentFlagged(old(pd.documents), LinkedKeywords(graph.inverted, graph.keywords, graph.candidates), isPageData)
    ensures pd.domain == old(pd.domain) && pd.ip == old(pd.ip) && pd.redirect == old(pd.redirect) && pd.state == old(pd.state)
  {
    var linkedKeywords := CollectLinkedKeywords(graph.inverted, graph.keywords, graph.candidates);
    FlagLinkedDocuments(pd, linkedKeywords, isPageData);
  }

  /** The document loop of process: each repaired document is processed
      while the disqualifier qualifies, the processed documents that have a
      URL are kept in order, and their qualities (or the language penalty)
      are offered to the disqualifier. */
  method ProcessDocuments(docs: array<CrawledDocument>, crawled: CrawledDomain, env: Collaborators,
                          minAvgDocumentQuality: real, pd: ProcessedDomain)
    modifies pd
    ensures pd.documents == KeptDocuments(docs[..], crawled, env)
    ensures pd.domain == old(pd.domain) && pd.ip == old(pd.ip) && pd.redirect == old(pd.redirect) && pd.state == old(pd.state)
  {
    var documents: seq<ProcessedDocument> := [];
    var disqualifier := new DocumentDisqualifier(minAvgDocumentQuality);
    var i := 0;
    while i < docs.Length
      invariant 0 <= i <= docs.Length
      invariant pd.domain == old(pd.domain) && pd.ip == old(pd.ip) && pd.redirect == old(pd.redirect) && pd.state == old(pd.state)
      invariant documents == KeptDocuments(docs[..i], crawled, env)
      invariant disqualifier.Valid() && disqualifier.minAvgDocumentQuality == minAvgDocumentQuality
      invariant disqualifier.count == |Offers(docs[..i], crawled, env)|
      invariant disqualifier.goodCount == CountAbove(Offers(docs[..i], crawled, env), minAvgDocumentQuality)
    {
      var doc := docs[i];
      ghost var offers := Offers(docs[..i], crawled, env);
      ProcessingStep(docs[..], i, crawled, env);
      assert docs[..][..i] == docs[..i] && docs[..][..i + 1] == docs[..i + 1];
      if disqualifier.IsQualified() {
        var processedDoc := env.processDocument(doc, crawled);
        if processedDoc.url.Some? {
          documents := documents + [processedDoc];
          if processedDoc.quality.Some? {
            disqualifier.Offer(processedDoc.quality.value);
            CountAboveStep(offers, processedDoc.quality.value, minAvgDocumentQuality);
          } else {
            assert offers + Offered(doc, crawled, env) == offers;
          }
        } else if processedDoc.stateReason == Some("LANGUAGE") {
          disqualifier.Offer(LanguagePenalty);
          CountAboveStep(offers, LanguagePenalty, minAvgDocumentQuality);
        } else {
          assert offers + Offered(doc, crawled, env) == offers;
        }
      } else {
        var stub := env.makeDisqualifiedStub(doc).(stateReason := Some("SHORT_CIRCUIT"));
        if stub.url.Some? {
          documents := documents + [stub];
        }
      }
      i := i + 1;
    }
    assert docs[..i] == docs[..];
    pd.documents := documents;
  }

  /** process: the document array is repaired in place and every later step
      reads the repaired documents. The result is null where getState throws
      on a status that names no CrawlerDomainStatus constant; the repair has
      happened by then. */
  method Process(crawled: CrawledDomain, docs: array?<CrawledDocument>, env: Collaborators, minAvgDocumentQuality: real)
    returns (ret: ProcessedDomain?)
    modifies docs
    ensures docs != null ==> docs[..] == Repaired(old(docs[..]), env.domainOf)
    ensures ret == null <==> StateForStatus(crawled.crawlerStatus).None?
    ensures ret != null ==>
              fresh(ret)
              && ret.domain == crawled.domain && ret.ip == crawled.ip && ret.redirect == crawled.redirectDomain
              && ret.state == StateForStatus(crawled.crawlerStatus)
              && ret.documents == (if docs == null then [] else DomainDocuments(docs[..], crawled, env))
  {
    var pd := new ProcessedDomain(crawled.domain, crawled.ip);
    if crawled.redirectDomain.Some? {
      pd.redirect := crawled.redirectDomain;
    }

    if docs != null {
      FixBadCanonicalTags(docs, env.domainOf);
      ProcessDocuments(docs, crawled, env, minAvgDocumentQuality, pd);
      var internalLinkGraph := env.linkGraph(pd.documents);
      FlagCommonSiteWords(pd, env);
      FlagAdjacentSiteWords(internalLinkGraph, pd, env.isPageData);
    }

    var state := StateForStatus(crawled.crawlerStatus);
    if state.None? {
      return null;
    }
    pd.state := state;
    ret := pd;
  }
}
