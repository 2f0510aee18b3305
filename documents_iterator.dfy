/** The document stream of a sideloaded domain (SideloadProcessing's
    DocumentsIterator): it reads the crawl data stream one record at a time,
    skips everything but documents with a new URL, and holds at most one
    processed document in its `next` field. */
module SideloadIteration {
  import opened Common
  import opened DomainProcessor

  /** A sideloaded document: a fully processed one gets the fixed size and
      its external link count as topology, since no link graph is built. */
  function Sideloaded(p: ProcessedDocument, countForUrl: string -> int): (r: ProcessedDocument)
    ensures r.url == p.url && r.processedFully == p.processedFully
    ensures p.processedFully && NeedsStatistics(p) ==>
              NeedsStatistics(r)
              && r.details.value.metadata.value.size == SideloadDocumentSize
              && r.details.value.metadata.value.topology == countForUrl(p.url)
              && r.details.value.metadata.value.otherFields == p.details.value.metadata.value.otherFields
    ensures !p.processedFully ==> r == p
  {
    if p.processedFully && NeedsStatistics(p) then WithSizeAndTopology(p, SideloadDocumentSize, countForUrl(p.url))
    else p
  }

  /** The documents the stream still yields from `records`, given the URLs
      already processed. */
  function Yield(records: seq<CrawlData>, seen: set<string>, process: CrawledDocument -> ProcessedDocument,
                 countForUrl: string -> int): seq<ProcessedDocument>
    decreases |records|
  {
    if records == [] then []
    else if records[0].DocumentRecord? && records[0].doc.url.Some? && records[0].doc.url.value !in seen then
      [Sideloaded(process(records[0].doc), countForUrl)]
      + Yield(records[1..], seen + {records[0].doc.url.value}, process, countForUrl)
    else Yield(records[1..], seen, process, countForUrl)
  }

  /** With a processor that keeps the crawled URL, the stream never yields a
      URL already processed, nor the same URL twice. */
  lemma {:induction false} YieldedUrlsAreNew(records: seq<CrawlData>, seen: set<string>,
                                             process: CrawledDocument -> ProcessedDocument, countForUrl: string -> int)
    requires forall doc: CrawledDocument :: doc.url.Some? ==> process(doc).url == doc.url.value
    ensures forall i :: 0 <= i < |Yield(records, seen, process, countForUrl)| ==>
              Yield(records, seen, process, countForUrl)[i].url !in seen
    ensures forall i, j :: 0 <= i < j < |Yield(records, seen, process, countForUrl)| ==>
              Yield(records, seen, process, countForUrl)[i].url != Yield(records, seen, process, countForUrl)[j].url
    decreases |records|
  {
    if records != [] {
      var d := records[0];
      if d.DocumentRecord? && d.doc.url.Some? && d.doc.url.value !in seen {
        var u := d.doc.url.value;
        YieldedUrlsAreNew(records[1..], seen + {u}, process, countForUrl);
        var rest := Yield(records[1..], seen + {u}, process, countForUrl);
        var ys := Yield(records, seen, process, countForUrl);
        assert ys == [Sideloaded(process(d.doc), countForUrl)] + rest;
        assert ys[0].url == u;
        assert forall i :: 1 <= i < |ys| ==> ys[i] == rest[i - 1];
        assert forall i :: 0 <= i < |rest| ==> rest[i].url !in seen && rest[i].url != u;
      } else {
        YieldedUrlsAreNew(records[1..], seen, process, countForUrl);
        assert Yield(records, seen, process, countForUrl) == Yield(records[1..], seen, process, countForUrl);
      }
    }
  }

  /** DocumentsIterator over the shared data stream, from its current position. */
  class DocumentsIterator {
    const records: seq<CrawlData>
    const process: CrawledDocument -> ProcessedDocument
    const countForUrl: string -> int
    var position: nat
    var processedUrls: set<string>
    var next: Option<ProcessedDocument>

    ghost predicate Valid()
      reads this
    {
      position <= |records|
    }

    /** The documents still to come: the buffered one, then the rest of the stream. */
    ghost function Pending(): seq<ProcessedDocument>
      reads this
      requires Valid()
    {
      (if next.Some? then [next.value] else []) + Yield(records[position..], processedUrls, process, countForUrl)
    }

    constructor (records: seq<CrawlData>, position: nat, processedUrls: set<string>,
                 process: CrawledDocument -> ProcessedDocument, countForUrl: string -> int)
      requires position <= |records|
      ensures this.records == records && this.process == process && this.countForUrl == countForUrl
      ensures this.position == position && this.processedUrls == processedUrls && next.None?
      ensures Valid() && Pending() == Yield(records[position..], processedUrls, process, countForUrl)
    {
      this.records := records;
      this.process := process;
      this.countForUrl := countForUrl;
      this.position := position;
      this.processedUrls := processedUrls;
      next := None;
    }

    /** hasNext as written: it looks for a document only while none is
        buffered, and answers false whenever one already is. */
    method HasNextAsWritten() returns (b: bool)
      requires Valid()
      modifies this
      ensures Valid()
      ensures Pending() == old(Pending())
      ensures b <==> old(next).None? && Pending() != []
      ensures old(next).None? ==> (next.Some? <==> b)
      ensures old(next).Some? ==> next == old(next)
    {
      while next.None? && position < |records|
        invariant Valid()
        invariant next == old(next)
        invariant Pending() == old(Pending())
        decreases |records| - position
      {
        var data := records[position];
        assert records[position..] == [data] + records[position + 1..];
        position := position + 1;
        if !data.DocumentRecord? {
          continue;
        }
        var doc := data.doc;
        if doc.url.None? || doc.url.value in processedUrls {
          continue;
        }
        processedUrls := processedUrls + {doc.url.value};
        var processedDoc := process(doc);
        next := Some(Sideloaded(processedDoc, countForUrl));
        return true;
      }
      return false;
    }

    /** hasNext as an Iterator must behave: true exactly when a document is
        still to come, whether or not it is buffered already. */
    method HasNext() returns (b: bool)
      requires Valid()
      modifies this
      ensures Valid()
      ensures Pending() == old(Pending())
      ensures b <==> Pending() != []
      ensures b <==> next.Some?
    {
      var found := HasNextAsWritten();
      b := next.Some?;
    }

    /** next: the first pending document, or None where Java throws
        NoSuchElementException; the buffer is empty afterwards either way. */
    method Next() returns (r: Option<ProcessedDocument>)
      requires Valid()
      modifies this
      ensures Valid() && next.None?
      ensures old(Pending()) == [] ==> r.None? && Pending() == []
      ensures old(Pending()) != [] ==> r == Some(old(Pending())[0]) && Pending() == old(Pending())[1..]
    {
      if next.None? {
        var found := HasNextAsWritten();
        if !found {
          next := None;
          return None;
        }
      }
      r := next;
      next := None;
    }
  }

  /** Two hasNext calls in a row on a stream holding one document: the
      first buffers the document and answers true, the second answers false. */
  method HasNextTwiceDisagrees() returns (first: bool, second: bool)
    ensures first && !second
  {
    var doc := CrawledDocument(Some("https://www.example.com/"), None);
    var it := new DocumentsIterator([DocumentRecord(doc)], 0, {},
                                    (d: CrawledDocument) => ProcessedDocument(if d.url.Some? then d.url.value else "", false, None),
                                    (u: string) => 0);
    first := it.HasNextAsWritten();
    second := it.HasNextAsWritten();
  }

  /** The same two calls with the corrected hasNext both answer true. */
  method HasNextTwiceAgrees() returns (first: bool, second: bool)
    ensures first && second
  {
    var doc := CrawledDocument(Some("https://www.example.com/"), None);
    var it := new DocumentsIterator([DocumentRecord(doc)], 0, {},
                                    (d: CrawledDocument) => ProcessedDocument(if d.url.Some? then d.url.value else "", false, None),
                                    (u: string) => 0);
    first := it.HasNext();
    second := it.HasNext();
  }

  /** The documents a sideloaded stream yields after its domain record. */
  function SideloadDocuments(records: seq<CrawlData>, process: CrawledDocument -> ProcessedDocument,
                             countForUrl: string -> int): seq<ProcessedDocument>
    requires |records| > 0
  {
    Yield(records[1..], {}, process, countForUrl)
  }

  /** getDocumentsStream on a freshly opened sideload: an iterator whose
      pending documents are all the stream yields after the domain record. */
  method GetDocumentsStream(records: seq<CrawlData>, process: CrawledDocument -> ProcessedDocument,
                            countForUrl: string -> int) returns (it: DocumentsIterator)
    requires |records| > 0
    ensures fresh(it) && it.Valid() && it.Pending() == SideloadDocuments(records, process, countForUrl)
  {
    it := new DocumentsIterator(records, 1, {}, process, countForUrl);
  }
}
