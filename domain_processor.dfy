/** The converter's DomainProcessor: one domain's crawl data stream becomes a
    processed domain. Small domains are read whole (fullProcessing), large
    ones are streamed (sideload processing). The domain record contributes
    the domain's fields and the search terms derived from its IP address;
    the documents are deduplicated by URL and, at the end, given their
    size and link topology. */
module DomainProcessor {
  import opened Common
  import opened CrawlerStatus

  /** Crawl data files larger than this many bytes are sideloaded. */
  const DomainSideloadThreshold: int := 10_000_000

  /** The size written on a fully processed sideloaded document. */
  const SideloadDocumentSize: int := 10_000

  const CloudTerm: string := "special:cloud"
  const AcademiaTerm: string := "special:academia"

  // ---------------------------------------------------------------------
  // Data model

  datatype CrawledDomain = CrawledDomain(
    domain: string,
    ip: Option<string>,
    redirectDomain: Option<string>,
    crawlerStatus: string)

  /** A crawled document; only its URL is read here, the rest goes to the
      document processor. */
  datatype CrawledDocument = CrawledDocument(url: Option<string>, documentBody: Option<string>)

  /** The records of a crawl data stream. */
  datatype CrawlData = DomainRecord(crawledDomain: CrawledDomain) | DocumentRecord(doc: CrawledDocument)

  /** The document metadata fields the converter sets here; `otherFields`
      stands for the rest of the record, which is carried along. */
  datatype DocumentMetadata = DocumentMetadata(size: int, topology: int, otherFields: int)

  datatype DocumentDetails = DocumentDetails(metadata: Option<DocumentMetadata>)

  /** A processed document: `details` is null unless the processor got far
      enough to describe the document. */
  datatype ProcessedDocument = ProcessedDocument(url: string, processedFully: bool, details: Option<DocumentDetails>)

  /** AsnTable.AsnInfo */
  datatype AsnInfo = AsnInfo(asn: int, org: string)

  /** The external links fetched from the anchor tag source for a domain name
      (null when asked for a null domain). */
  datatype DomainLinks = DomainLinks(domain: Option<string>)

  /** DocumentDecorator: the external links it was made with and the terms added to it. */
  datatype Decorator = Decorator(links: Option<DomainLinks>, terms: seq<string>)

  /** The fields of ProcessedDomain that processDomain sets. */
  datatype DomainHeader = DomainHeader(
    domain: Option<string>,
    ip: Option<string>,
    redirect: Option<string>,
    state: Option<DomainIndexingState>)

  const EmptyHeader: DomainHeader := DomainHeader(None, None, None, None)

  /** The collaborators whose bodies are not part of this model, as functions:
      SerializableCrawlData.getDomain, the top domain of EdgeDomain, the
      GeoIpDictionary lookups, DocumentProcessor.process (None where it
      throws), DomainLinks.countForUrl, the LinkGraph's size and inverted
      in-link count over the documents, and the SiteWords flagging. */
  datatype Environment = Environment(
    recordDomain: CrawlData -> Option<string>,
    topDomain: string -> string,
    country: Option<string> -> string,
    asnInfo: Option<string> -> Option<AsnInfo>,
    processDocument: (CrawledDocument, Option<DomainLinks>, Option<Decorator>) -> Option<ProcessedDocument>,
    countForUrl: (DomainLinks, string) -> int,
    graphSize: seq<ProcessedDocument> -> int,
    inLinks: (seq<ProcessedDocument>, string) -> int,
    siteWords: seq<ProcessedDocument> -> seq<ProcessedDocument>)

  // ---------------------------------------------------------------------
  // Domain-level terms

  /** The organisations whose address blocks count as cloud hosting. */
  const CloudProviders: seq<string> := ["MICROSOFT-AZURE", "AMAZON", "CLOUDFLARE", "GOOGLE-CLOUD", "DIGITALOCEAN", "ALIBABA"]

  /** isCloudy: the AS organisation names one of the cloud providers. */
  function IsCloudy(org: string): (r: bool)
    ensures r <==> exists k :: 0 <= k < |CloudProviders| && Contains(org, CloudProviders[k])
  {
    var r := if Contains(org, "MICROSOFT-AZURE") then true
             else if Contains(org, "AMAZON") then true
             else if Contains(org, "CLOUDFLARE") then true
             else if Contains(org, "GOOGLE-CLOUD") then true
             else if Contains(org, "DIGITALOCEAN") then true
             else if Contains(org, "ALIBABA") then true
             else false;
    assert r <==> Contains(org, CloudProviders[0]) || Contains(org, CloudProviders[1]) || Contains(org, CloudProviders[2])
                  || Contains(org, CloudProviders[3]) || Contains(org, CloudProviders[4]) || Contains(org, CloudProviders[5]);
    assert (exists k :: 0 <= k < |CloudProviders| && Contains(org, CloudProviders[k])) ==> r by {
      if exists k :: 0 <= k < |CloudProviders| && Contains(org, CloudProviders[k]) {
        var k :| 0 <= k < |CloudProviders| && Contains(org, CloudProviders[k]);
        assert k in {0, 1, 2, 3, 4, 5};
      }
    }
    r
  }

  /** The characters a regular expression `.` does not match. */
  predicate IsLineTerminator(c: char) {
    c == '\n' || c == '\r' || c == '\U{85}' || c == '\U{2028}' || c == '\U{2029}'
  }

  predicate NoLineTerminator(s: string) {
    forall i :: 0 <= i < |s| ==> !IsLineTerminator(s[i])
  }

  predicate IsLowerLetter(c: char) {
    'a' <= c <= 'z'
  }

  /** `t` is matched by `\.(ac|edu)\.[a-z]{2}`. */
  predicate AcademicTail(t: string) {
    ((|t| == 6 && t[..4] == ".ac.") || (|t| == 7 && t[..5] == ".edu."))
    && IsLowerLetter(t[|t| - 2]) && IsLowerLetter(t[|t| - 1])
  }

  /** The whole of `s` matches `.*\.(ac|edu)\.[a-z]{2}$`. */
  ghost predicate MatchesAcademicPattern(s: string) {
    exists n :: 0 <= n <= |s| && NoLineTerminator(s[..n]) && AcademicTail(s[n..])
  }

  /** The pattern test, by looking at the only two places the tail can start. */
  function AcademicPatternMatches(s: string): (r: bool)
    ensures r <==> MatchesAcademicPattern(s)
  {
    var r := TailAt(s, 6) || TailAt(s, 7);
    AcademicTailStarts(s);
    r
  }

  /** The last `k` characters of `s` are an academic tail, after no line terminator. */
  predicate TailAt(s: string, k: nat) {
    |s| >= k && NoLineTerminator(s[..|s| - k]) && AcademicTail(s[|s| - k..])
  }

  /** A match starts six or seven characters before the end, as the tail is that long. */
  lemma AcademicTailStarts(s: string)
    ensures MatchesAcademicPattern(s) <==> TailAt(s, 6) || TailAt(s, 7)
  {
    if MatchesAcademicPattern(s) {
      var n :| 0 <= n <= |s| && NoLineTerminator(s[..n]) && AcademicTail(s[n..]);
      assert |s[n..]| == 6 || |s[n..]| == 7;
      assert n == |s| - 6 || n == |s| - 7;
    }
    if TailAt(s, 6) {
      var n := |s| - 6;
      assert NoLineTerminator(s[..n]) && AcademicTail(s[n..]);
    }
    if TailAt(s, 7) {
      var n := |s| - 7;
      assert NoLineTerminator(s[..n]) && AcademicTail(s[n..]);
    }
  }

  /** isAcademicDomain */
  function IsAcademicDomain(topDomain: string): (r: bool)
    ensures r <==> EndsWith(topDomain, ".edu") || MatchesAcademicPattern(topDomain)
  {
    if EndsWith(topDomain, ".edu") then true
    else if AcademicPatternMatches(topDomain) then true
    else false
  }

  /** String concatenation prints a null reference as "null". */
  function IpText(ip: Option<string>): string {
    if ip.Some? then ip.value else "null"
  }

  /** Each term with its "as:" prefix dropped. */
  function TermTokens(terms: seq<string>): (r: seq<string>)
    requires forall k :: 0 <= k < |terms| ==> |terms[k]| >= 3
    ensures |r| == |terms|
  {
    seq(|terms|, k requires 0 <= k < |terms| => terms[k][3..])
  }

  /** No upper-case ASCII letter: what toLowerCase leaves. */
  predicate IsLowerCased(s: string) {
    forall i :: 0 <= i < |s| ==> !('A' <= s[i] <= 'Z')
  }

  /** The "as:" terms of an AS organisation: one per '-'-separated part. Each
      is "as:" and a non-empty lower-cased token without '-', and the tokens
      in order spell the organisation lower-cased with its '-' removed. */
  function OrgTerms(org: string): (r: seq<string>)
    ensures forall k :: 0 <= k < |r| ==>
              |r[k]| > 3 && r[k][..3] == "as:" && '-' !in r[k][3..] && IsLowerCased(r[k][3..])
    ensures Concat(TermTokens(r)) == ToLower(Without(org, '-'))
  {
    var parts := Split(org, '-');
    var r := seq(|parts|, k requires 0 <= k < |parts| => "as:" + ToLower(parts[k]));
    forall k | 0 <= k < |r|
      ensures '-' !in r[k][3..] && IsLowerCased(r[k][3..])
    {
      assert r[k][3..] == ToLower(parts[k]);
      forall i | 0 <= i < |parts[k]|
        ensures r[k][3..][i] != '-' && !('A' <= r[k][3..][i] <= 'Z')
      {
        LowerCharKeepsOthers(parts[k][i]);
      }
    }
    SplitKeepsOtherCharacters(org, '-');
    LowerTokensConcat(parts, r);
    r
  }

  /** The tokens of the terms are the parts lower-cased, so joined they are
      the joined parts lower-cased. */
  lemma {:induction false} LowerTokensConcat(parts: seq<string>, terms: seq<string>)
    requires |terms| == |parts|
    requires forall k :: 0 <= k < |parts| ==> terms[k] == "as:" + ToLower(parts[k])
    ensures Concat(TermTokens(terms)) == ToLower(Concat(parts))
    decreases |parts|
  {
    if parts != [] {
      LowerTokensConcat(parts[1..], terms[1..]);
      assert TermTokens(terms)[1..] == TermTokens(terms[1..]);
      assert TermTokens(terms)[0] == ToLower(parts[0]);
      ToLowerAppend(parts[0], Concat(parts[1..]));
    }
  }

  /** The terms of an AS, in the order addIpInfo adds them. */
  function AsnTerms(info: AsnInfo): seq<string> {
    ["as:" + IntToString(info.asn)] + OrgTerms(info.org)
    + (if IsCloudy(info.org) then [CloudTerm] else [])
  }

  /** addIpInfo: the terms added to the decorator for the domain's IP, given
      the country and AS the geo-IP dictionary returns for it. */
  function IpTerms(ip: Option<string>, country: string, asn: Option<AsnInfo>): seq<string> {
    ["ip:" + IpText(ip)]
    + (if IsBlank(country) then [] else ["ip:" + ToLower(country)])
    + (if asn.Some? then AsnTerms(asn.value) else [])
  }

  /** Every term of addIpInfo is an "ip:" term, an "as:" term or the cloud term. */
  lemma IpTermsAreTagged(ip: Option<string>, country: string, asn: Option<AsnInfo>)
    ensures forall t :: t in IpTerms(ip, country, asn) ==> StartsWith(t, "ip:") || StartsWith(t, "as:") || t == CloudTerm
  {
    forall t | t in IpTerms(ip, country, asn)
      ensures StartsWith(t, "ip:") || StartsWith(t, "as:") || t == CloudTerm
    {
      var head := ["ip:" + IpText(ip)] + (if IsBlank(country) then [] else ["ip:" + ToLower(country)]);
      if t in head {
        assert StartsWith(t, "ip:");
      } else if asn.Some? {
        var parts := OrgTerms(asn.value.org);
        if t in parts {
          var k :| 0 <= k < |parts| && parts[k] == t;
          assert StartsWith(t, "as:");
        }
      }
    }
  }

  /** The domain's terms: the IP terms, then "special:academia" for an
      academic top domain. */
  function DomainTerms(crawled: CrawledDomain, env: Environment): seq<string> {
    IpTerms(crawled.ip, env.country(crawled.ip), env.asnInfo(crawled.ip))
    + (if IsAcademicDomain(env.topDomain(crawled.domain)) then [AcademiaTerm] else [])
  }

  /** The domain's terms begin with its IP, name its country unless that is
      blank and its AS number when there is one, say "special:cloud" exactly
      for a cloud-hosted AS and "special:academia" exactly for an academic
      top domain. */
  lemma DomainTermsCharacterized(crawled: CrawledDomain, env: Environment)
    ensures var terms := DomainTerms(crawled, env);
            var asn := env.asnInfo(crawled.ip);
            |terms| >= 1 && terms[0] == "ip:" + IpText(crawled.ip)
            && (!IsBlank(env.country(crawled.ip)) ==> "ip:" + ToLower(env.country(crawled.ip)) in terms)
            && (asn.Some? ==> "as:" + IntToString(asn.value.asn) in terms)
            && (CloudTerm in terms <==> asn.Some? && IsCloudy(asn.value.org))
            && (AcademiaTerm in terms <==> IsAcademicDomain(env.topDomain(crawled.domain)))
  {
    var ipTerms := IpTerms(crawled.ip, env.country(crawled.ip), env.asnInfo(crawled.ip));
    var asn := env.asnInfo(crawled.ip);
    IpTermsAreTagged(crawled.ip, env.country(crawled.ip), asn);
    assert CloudTerm[..3] == "spe" && AcademiaTerm[..3] == "spe";
    assert !StartsWith(CloudTerm, "ip:") && !StartsWith(CloudTerm, "as:");
    assert !StartsWith(AcademiaTerm, "ip:") && !StartsWith(AcademiaTerm, "as:") && AcademiaTerm != CloudTerm;
    assert AcademiaTerm !in ipTerms;
    if asn.Some? {
      assert CloudTerm in ipTerms <==> IsCloudy(asn.value.org) by {
        var parts := OrgTerms(asn.value.org);
        assert CloudTerm !in parts;
        assert ipTerms == (["ip:" + IpText(crawled.ip)] + (if IsBlank(env.country(crawled.ip)) then [] else ["ip:" + ToLower(env.country(crawled.ip))]))
                          + (["as:" + IntToString(asn.value.asn)] + parts) + (if IsCloudy(asn.value.org) then [CloudTerm] else []);
      }
    }
  }

  /** processDomain: the domain's fields, with the redirect replaced only
      when the record names one; None where getState throws. */
  function ProcessDomain(crawled: CrawledDomain, header: DomainHeader): (r: Option<DomainHeader>)
    ensures r.None? <==> StateForStatus(crawled.crawlerStatus).None?
    ensures r.Some? ==> r.value.domain == Some(crawled.domain) && r.value.ip == crawled.ip
                        && r.value.state == StateForStatus(crawled.crawlerStatus)
    ensures r.Some? && crawled.redirectDomain.Some? ==> r.value.redirect == crawled.redirectDomain
    ensures r.Some? && crawled.redirectDomain.None? ==> r.value.redirect == header.redirect
  {
    match StateForStatus(crawled.crawlerStatus)
    case None => None
    case Some(state) =>
      var redirect := if crawled.redirectDomain.Some? then crawled.redirectDomain else header.redirect;
      Some(DomainHeader(Some(crawled.domain), crawled.ip, redirect, Some(state)))
  }

  // ---------------------------------------------------------------------
  // fullProcessing: the ingestion loop

  /** What the ingestion loop holds after some records. `attached` says
      whether ret.documents refers to the document list yet; `failed` says an
      exception left the loop. */
  datatype IngestState = IngestState(
    header: DomainHeader,
    attached: bool,
    docs: seq<ProcessedDocument>,
    processedUrls: set<string>,
    links: Option<DomainLinks>,
    decorator: Option<Decorator>,
    failed: bool)

  const InitialIngest: IngestState := IngestState(EmptyHeader, false, [], {}, None, None, false)

  /** The external links are fetched once, for the first record that knows its domain. */
  function LinksAfter(links: Option<DomainLinks>, data: CrawlData, env: Environment): Option<DomainLinks> {
    if links.Some? then links
    else if env.recordDomain(data).Some? then Some(DomainLinks(env.recordDomain(data)))
    else None
  }

  /** One iteration of the ingestion loop: after an exception nothing
      changes; otherwise documents are only appended, at most one, and only
      for a document record with a URL not processed before; processed URLs
      only grow; and an exception is raised only by getState on a domain
      record whose status names no constant. */
  function IngestRecord(st: IngestState, data: CrawlData, env: Environment): (r: IngestState)
    ensures st.failed ==> r == st
    ensures |st.docs| <= |r.docs| <= |st.docs| + 1 && r.docs[..|st.docs|] == st.docs
    ensures |r.docs| > |st.docs| ==>
              data.DocumentRecord? && data.doc.url.Some? && data.doc.url.value !in st.processedUrls
    ensures st.processedUrls <= r.processedUrls
    ensures r.failed <==> st.failed || (data.DomainRecord? && StateForStatus(data.crawledDomain.crawlerStatus).None?)
  {
    if st.failed then st
    else
      var links := LinksAfter(st.links, data, env);
      match data
      case DomainRecord(crawled) =>
        (match ProcessDomain(crawled, st.header)
         case None => st.(links := links, failed := true)
         case Some(header) =>
           st.(header := header, attached := true, links := links,
               decorator := Some(Decorator(links, DomainTerms(crawled, env)))))
      case DocumentRecord(doc) =>
        if doc.url.None? || doc.url.value in st.processedUrls then st.(links := links)
        else
          var urls := st.processedUrls + {doc.url.value};
          match env.processDocument(doc, links, st.decorator)
          case None => st.(links := links, processedUrls := urls)
          case Some(processed) => st.(links := links, processedUrls := urls, docs := st.docs + [processed])
  }

  /** The loop over a prefix of the stream. */
  function Ingest(records: seq<CrawlData>, env: Environment): IngestState {
    if records == [] then InitialIngest
    else IngestRecord(Ingest(records[..|records| - 1], env), records[|records| - 1], env)
  }

  lemma IngestStep(records: seq<CrawlData>, i: int, env: Environment)
    requires 0 <= i < |records|
    ensures Ingest(records[..i + 1], env) == IngestRecord(Ingest(records[..i], env), records[i], env)
  {
    assert records[..i + 1][..i] == records[..i];
  }

  /** Once an exception has left the loop, nothing more is read. */
  lemma {:induction false} IngestFailureIsFinal(records: seq<CrawlData>, k: int, env: Environment)
    requires 0 <= k <= |records| && Ingest(records[..k], env).failed
    ensures Ingest(records, env) == Ingest(records[..k], env)
    decreases |records| - k
  {
    if k < |records| {
      IngestStep(records, k, env);
      IngestFailureIsFinal(records, k + 1, env);
      assert records[..|records|] == records;
    } else {
      assert records[..k] == records;
    }
  }

  /** The loop only ever appends: the documents after a prefix of the stream
      come first, in the same order, among the documents after the whole stream. */
  lemma {:induction false} IngestAppendsInStreamOrder(records: seq<CrawlData>, k: int, env: Environment)
    requires 0 <= k <= |records|
    ensures var before := Ingest(records[..k], env).docs;
            var after := Ingest(records, env).docs;
            |before| <= |after| && after[..|before|] == before
    ensures Ingest(records[..k], env).processedUrls <= Ingest(records, env).processedUrls
    decreases |records| - k
  {
    if k == |records| {
      assert records[..k] == records;
    } else {
      IngestAppendsInStreamOrder(records, k + 1, env);
      IngestStep(records, k, env);
      var mid := Ingest(records[..k + 1], env).docs;
      var before := Ingest(records[..k], env).docs;
      assert |before| <= |mid| && mid[..|before|] == before;
    }
  }

  /** DocumentProcessor.process keeps the crawled document's URL. */
  ghost predicate KeepsUrls(env: Environment) {
    forall doc: CrawledDocument, links: Option<DomainLinks>, decorator: Option<Decorator> :: doc.url.Some? && env.processDocument(doc, links, decorator).Some?
      ==> env.processDocument(doc, links, decorator).value.url == doc.url.value
  }

  /** With a URL-keeping processor, every kept document's URL was recorded as
      processed and no URL is kept twice. */
  lemma {:induction false} IngestedUrlsAreDistinct(records: seq<CrawlData>, env: Environment)
    requires KeepsUrls(env)
    ensures forall i :: 0 <= i < |Ingest(records, env).docs| ==>
              Ingest(records, env).docs[i].url in Ingest(records, env).processedUrls
    ensures forall i, j :: 0 <= i < j < |Ingest(records, env).docs| ==>
              Ingest(records, env).docs[i].url != Ingest(records, env).docs[j].url
  {
    if records != [] {
      var prefix := records[..|records| - 1];
      IngestedUrlsAreDistinct(prefix, env);
      var before := Ingest(prefix, env);
      var after := Ingest(records, env);
      var last := records[|records| - 1];
      assert after == IngestRecord(before, last, env);
      assert before.processedUrls <= after.processedUrls;
      assert forall i :: 0 <= i < |before.docs| ==> before.docs[i].url in before.processedUrls;
      assert forall i, j :: 0 <= i < j < |before.docs| ==> before.docs[i].url != before.docs[j].url;
      if !before.failed && last.DocumentRecord? && last.doc.url.Some? && last.doc.url.value !in before.processedUrls {
        var links := LinksAfter(before.links, last, env);
        match env.processDocument(last.doc, links, before.decorator) {
          case None =>
            assert after.docs == before.docs;
          case Some(p) =>
            assert after.docs == before.docs + [p];
            assert p.url == last.doc.url.value;
            assert forall i :: 0 <= i < |before.docs| ==> after.docs[i] == before.docs[i];
            assert p.url !in before.processedUrls && p.url in after.processedUrls;
        }
      } else {
        assert after.docs == before.docs;
      }
    }
  }

  /** Every kept document is what the processor made of a document record of
      the stream with a URL. */
  lemma {:induction false} IngestedDocumentsComeFromTheStream(records: seq<CrawlData>, env: Environment)
    ensures forall p :: p in Ingest(records, env).docs ==>
              exists k, links, decorator :: 0 <= k < |records| && records[k].DocumentRecord?
                && records[k].doc.url.Some?
                && env.processDocument(records[k].doc, links, decorator) == Some(p)
  {
    if records != [] {
      var n := |records| - 1;
      var prefix := records[..n];
      IngestedDocumentsComeFromTheStream(prefix, env);
      var before := Ingest(prefix, env);
      forall p | p in Ingest(records, env).docs
        ensures exists k, links, decorator :: 0 <= k < |records| && records[k].DocumentRecord?
                  && records[k].doc.url.Some?
                  && env.processDocument(records[k].doc, links, decorator) == Some(p)
      {
        if p in before.docs {
          var k, links, decorator :| 0 <= k < |prefix| && prefix[k].DocumentRecord?
            && prefix[k].doc.url.Some? && env.processDocument(prefix[k].doc, links, decorator) == Some(p);
          assert records[k] == prefix[k];
        } else {
          var links := LinksAfter(before.links, records[n], env);
          assert env.processDocument(records[n].doc, links, before.decorator) == Some(p);
        }
      }
    }
  }

  /** A document record with a URL seen before adds nothing; one with a new
      URL records it and adds the processed document unless processing threw. */
  lemma IngestDocumentRecord(records: seq<CrawlData>, i: int, env: Environment)
    requires 0 <= i < |records| && records[i].DocumentRecord? && !Ingest(records[..i], env).failed
    ensures var before := Ingest(records[..i], env);
            var after := Ingest(records[..i + 1], env);
            var doc := records[i].doc;
            !after.failed
            && (doc.url.None? || doc.url.value in before.processedUrls ==>
                  after.docs == before.docs && after.processedUrls == before.processedUrls)
            && (doc.url.Some? && doc.url.value !in before.processedUrls ==>
                  after.processedUrls == before.processedUrls + {doc.url.value}
                  && after.docs == before.docs
                     + (match env.processDocument(doc, after.links, before.decorator)
                        case None => []
                        case Some(p) => [p]))
  {
    IngestStep(records, i, env);
  }

  // ---------------------------------------------------------------------
  // calculateStatistics

  /** The documents calculateStatistics rewrites: those with details and metadata. */
  predicate NeedsStatistics(doc: ProcessedDocument) {
    doc.details.Some? && doc.details.value.metadata.Some?
  }

  /** DocumentMetadata.withSizeAndTopology on the document's metadata. */
  function WithSizeAndTopology(doc: ProcessedDocument, size: int, topology: int): ProcessedDocument
    requires NeedsStatistics(doc)
  {
    var m := doc.details.value.metadata.value;
    doc.(details := Some(DocumentDetails(Some(m.(size := size, topology := topology)))))
  }

  /** One document's statistics: the link graph's size, and its in-links
      within the domain plus its links from other domains. */
  function Statistics(doc: ProcessedDocument, docs: seq<ProcessedDocument>, links: DomainLinks, env: Environment): ProcessedDocument {
    if NeedsStatistics(doc) then
      WithSizeAndTopology(doc, env.graphSize(docs), env.inLinks(docs, doc.url) + env.countForUrl(links, doc.url))
    else doc
  }

  /** The documents after the statistics loop; None where it dereferences
      the missing external links. */
  function WithStatistics(docs: seq<ProcessedDocument>, links: Option<DomainLinks>, env: Environment)
    : Option<seq<ProcessedDocument>>
  {
    if links.None? then
      if exists i :: 0 <= i < |docs| && NeedsStatistics(docs[i]) then None else Some(docs)
    else Some(seq(|docs|, i requires 0 <= i < |docs| => Statistics(docs[i], docs, links.value, env)))
  }

  /** The statistics fail exactly when a document needs the external links
      and there are none; otherwise they keep every document in place, leave
      those without details or metadata alone, and on the others change only
      the size, to the link graph's size, and the topology, to the in-link
      count plus the external link count. */
  lemma StatisticsCharacterized(docs: seq<ProcessedDocument>, links: Option<DomainLinks>, env: Environment)
    ensures var r := WithStatistics(docs, links, env);
            (r.None? <==> links.None? && exists i :: 0 <= i < |docs| && NeedsStatistics(docs[i]))
            && (r.Some? ==>
                  |r.value| == |docs|
                  && forall i :: 0 <= i < |docs| ==>
                       r.value[i].url == docs[i].url && r.value[i].processedFully == docs[i].processedFully
                       && (!NeedsStatistics(docs[i]) ==> r.value[i] == docs[i])
                       && (NeedsStatistics(docs[i]) ==>
                             NeedsStatistics(r.value[i])
                             && r.value[i].details.value.metadata.value.size == env.graphSize(docs)
                             && r.value[i].details.value.metadata.value.topology
                                == env.inLinks(docs, docs[i].url) + env.countForUrl(links.value, docs[i].url)
                             && r.value[i].details.value.metadata.value.otherFields
                                == docs[i].details.value.metadata.value.otherFields))
  {
  }

  /** calculateStatistics: the per-document loop, then the site words. */
  method CalculateStatistics(documents: seq<ProcessedDocument>, externalDomainLinks: Option<DomainLinks>, env: Environment)
    returns (r: Option<seq<ProcessedDocument>>)
    ensures r.None? <==> WithStatistics(documents, externalDomainLinks, env).None?
    ensures r.Some? ==> r.value == env.siteWords(WithStatistics(documents, externalDomainLinks, env).value)
  {
    var updated := documents;
    var i := 0;
    while i < |documents|
      invariant 0 <= i <= |documents| && |updated| == |documents|
      invariant externalDomainLinks.None? ==> forall j :: 0 <= j < i ==> !NeedsStatistics(documents[j])
      invariant forall j :: 0 <= j < i ==>
                  updated[j] == if externalDomainLinks.Some? then Statistics(documents[j], documents, externalDomainLinks.value, env) else documents[j]
      invariant forall j :: i <= j < |documents| ==> updated[j] == documents[j]
    {
      var doc := updated[i];
      if doc.details.Some? && doc.details.value.metadata.Some? {
        if externalDomainLinks.None? {
          return None;
        }
        var size := env.graphSize(documents);
        var topology := env.inLinks(documents, doc.url) + env.countForUrl(externalDomainLinks.value, doc.url);
        updated := updated[i := WithSizeAndTopology(doc, size, topology)];
      }
      i := i + 1;
    }
    assert externalDomainLinks.Some? ==> updated == WithStatistics(documents, externalDomainLinks, env).value;
    assert externalDomainLinks.None? ==> updated == documents;
    r := Some(env.siteWords(updated));
  }

  // ---------------------------------------------------------------------
  // fullProcessing

  /** The result of fullProcessing: null for an empty stream, an exception,
      or the processed domain. */
  datatype FullOutcome = NoRecords | Failed | Completed(header: DomainHeader, documents: seq<ProcessedDocument>)

  /** fullProcessing as a whole. Without a domain record ret.documents is
      never set, so the statistics step throws. */
  function FullProcessingOutcome(records: seq<CrawlData>, env: Environment): FullOutcome {
    if records == [] then NoRecords
    else
      var st := Ingest(records, env);
      if st.failed || !st.attached then Failed
      else match WithStatistics(st.docs, st.links, env)
        case None => Failed
        case Some(docs) => Completed(st.header, env.siteWords(docs))
  }

  /** A stream without a domain record never completes. */
  lemma {:induction false} NoDomainRecordNoDocuments(records: seq<CrawlData>, env: Environment)
    requires forall k :: 0 <= k < |records| ==> records[k].DocumentRecord?
    ensures !Ingest(records, env).attached && !Ingest(records, env).failed
    ensures FullProcessingOutcome(records, env) != NoRecords ==> FullProcessingOutcome(records, env) == Failed
  {
    if records != [] {
      NoDomainRecordNoDocuments(records[..|records| - 1], env);
    }
  }

  /** A completed domain has a state, and the state is that of a domain record of the stream. */
  lemma {:induction false} CompletedDomainHasState(records: seq<CrawlData>, env: Environment)
    ensures Ingest(records, env).attached ==>
              Ingest(records, env).header.state.Some?
              && exists k :: 0 <= k < |records| && records[k].DomainRecord?
                   && Ingest(records, env).header.state == StateForStatus(records[k].crawledDomain.crawlerStatus)
  {
    if records != [] {
      var n := |records| - 1;
      CompletedDomainHasState(records[..n], env);
      var before := Ingest(records[..n], env);
      if before.attached && Ingest(records, env).header == before.header {
        var k :| 0 <= k < n && records[..n][k].DomainRecord?
          && before.header.state == StateForStatus(records[..n][k].crawledDomain.crawlerStatus);
        assert records[k] == records[..n][k];
      }
    }
  }

  /** fullProcessing: read the stream, keeping one document per new URL,
      then compute the statistics. */
  method FullProcessing(records: seq<CrawlData>, env: Environment) returns (r: FullOutcome)
    ensures r == FullProcessingOutcome(records, env)
    ensures r == NoRecords <==> records == []
  {
    if |records| == 0 {
      return NoRecords;
    }
    var header := EmptyHeader;
    var attached := false;
    var docs: seq<ProcessedDocument> := [];
    var processedUrls: set<string> := {};
    var externalDomainLinks: Option<DomainLinks> := None;
    var decorator: Option<Decorator> := None;

    var i := 0;
    while i < |records|
      invariant 0 <= i <= |records|
      decreases |records| - i
      invariant Ingest(records[..i], env)
                == IngestState(header, attached, docs, processedUrls, externalDomainLinks, decorator, false)
    {
      var data := records[i];
      IngestStep(records, i, env);
      if externalDomainLinks.None? {
        var domain := env.recordDomain(data);
        if domain.Some? {
          externalDomainLinks := Some(DomainLinks(domain));
        }
      }
      match data {
        case DomainRecord(crawledDomain) =>
          var processed := ProcessDomain(crawledDomain, header);
          if processed.None? {
            IngestFailureIsFinal(records, i + 1, env);
            return Failed;
          }
          header := processed.value;
          decorator := Some(Decorator(externalDomainLinks, DomainTerms(crawledDomain, env)));
          attached := true;
        case DocumentRecord(doc) =>
          if doc.url.Some? && doc.url.value !in processedUrls {
            processedUrls := processedUrls + {doc.url.value};
            var processedDoc := env.processDocument(doc, externalDomainLinks, decorator);
            if processedDoc.Some? {
              docs := docs + [processedDoc.value];
            }
          }
      }
      i := i + 1;
    }
    assert records[..i] == records;

    if !attached {
      return Failed;
    }
    var statistics := CalculateStatistics(docs, externalDomainLinks, env);
    if statistics.None? {
      return Failed;
    }
    return Completed(header, statistics.value);
  }

  // ---------------------------------------------------------------------
  // Choosing the processing mode

  /** The first record of a sideloaded stream must be the domain; its
      decorator is made with the external links of a null domain. */
  function OpenSideload(records: seq<CrawlData>, env: Environment): (r: Option<(DomainHeader, Decorator)>)
    ensures r.Some? <==> |records| > 0 && records[0].DomainRecord?
                         && StateForStatus(records[0].crawledDomain.crawlerStatus).Some?
    ensures r.Some? ==> r.value.0.domain == Some(records[0].crawledDomain.domain)
                        && r.value.0.ip == records[0].crawledDomain.ip
                        && r.value.0.state == StateForStatus(records[0].crawledDomain.crawlerStatus)
                        && r.value.0.redirect == records[0].crawledDomain.redirectDomain
                        && r.value.1 == Decorator(Some(DomainLinks(None)), DomainTerms(records[0].crawledDomain, env))
  {
    if |records| == 0 || !records[0].DomainRecord? then None
    else
      var crawled := records[0].crawledDomain;
      match ProcessDomain(crawled, EmptyHeader)
      case None => None
      case Some(header) => Some((header, Decorator(Some(DomainLinks(None)), DomainTerms(crawled, env))))
  }

  /** What createWritable makes of a stream: a sideload source (null where
      its constructor throws) or the result of full processing. */
  datatype Writable = Sideload(source: Option<(DomainHeader, Decorator)>) | Full(outcome: FullOutcome)

  /** createWritable: sideload only a stream with a file larger than the threshold. */
  function CreateWritable(fileSize: Option<int>, records: seq<CrawlData>, env: Environment): (r: Writable)
    ensures r.Sideload? <==> fileSize.Some? && fileSize.value > DomainSideloadThreshold
    ensures r.Full? ==> r.outcome == FullProcessingOutcome(records, env)
    ensures r.Sideload? ==> r.source == OpenSideload(records, env)
  {
    if fileSize.Some? && fileSize.value > DomainSideloadThreshold then Sideload(OpenSideload(records, env))
    else Full(FullProcessingOutcome(records, env))
  }
}
