/** Canonical-URL repair of one crawled domain (fixBadCanonicalTags of the
    legacy DomainProcessor). Sites sometimes point every page's canonical
    link at one page; the repair detaches such blanket canonicals, then
    drops canonicals that point at another domain. */
module CanonicalRepair {
  import opened Common

  /** The status name written on a document whose canonical cannot be reclaimed. */
  const BadCanonical: string := "BAD_CANONICAL"

  /** A crawled document, with the fields the repair reads or writes. */
  datatype CrawledDocument = CrawledDocument(
    url: Option<string>,
    canonicalUrl: Option<string>,
    documentBodyHash: Option<string>,
    crawlerStatus: string)

  /** Strings.isNullOrEmpty */
  predicate IsNullOrEmpty(s: Option<string>) {
    s.None? || s.value == ""
  }

  /** The document names a canonical URL other than its own URL. */
  predicate ClaimsCanonical(d: CrawledDocument) {
    !IsNullOrEmpty(d.canonicalUrl) && d.canonicalUrl != d.url
  }

  /** seenCanonicals.getOrDefault(c, emptySet) */
  function HashesOf(claims: map<string, set<Option<string>>>, c: string): set<Option<string>> {
    if c in claims then claims[c] else {}
  }

  /** First pass: canonical URL -> body hashes of the documents claiming it. */
  function ClaimedHashes(docs: seq<CrawledDocument>): map<string, set<Option<string>>>
  {
    if docs == [] then map[]
    else
      var claims := ClaimedHashes(docs[..|docs| - 1]);
      var d := docs[|docs| - 1];
      if ClaimsCanonical(d) then
        var c := d.canonicalUrl.value;
        claims[c := HashesOf(claims, c) + {d.documentBodyHash}]
      else claims
  }

  /** First pass: every document URL (null included, as a HashSet allows). */
  function KnownUrls(docs: seq<CrawledDocument>): set<Option<string>>
  {
    if docs == [] then {} else KnownUrls(docs[..|docs| - 1]) + {docs[|docs| - 1].url}
  }

  /** The hashes of the documents claiming `c`, by direct description. */
  function ClaimantHashes(docs: seq<CrawledDocument>, c: string): set<Option<string>> {
    set i | 0 <= i < |docs| && ClaimsCanonical(docs[i]) && docs[i].canonicalUrl == Some(c)
      :: docs[i].documentBodyHash
  }

  /** The collected map holds exactly the hashes of the claiming documents. */
  lemma {:induction false} ClaimedHashesAreClaimantHashes(docs: seq<CrawledDocument>, c: string)
    ensures HashesOf(ClaimedHashes(docs), c) == ClaimantHashes(docs, c)
  {
    if docs != [] {
      var n := |docs| - 1;
      var front := docs[..n];
      ClaimedHashesAreClaimantHashes(front, c);
      var d := docs[n];
      forall h ensures h in ClaimantHashes(docs, c) <==> h in ClaimantHashes(front, c) + (if ClaimsCanonical(d) && d.canonicalUrl == Some(c) then {d.documentBodyHash} else {})
      {
        if h in ClaimantHashes(docs, c) {
          var i :| 0 <= i < |docs| && ClaimsCanonical(docs[i]) && docs[i].canonicalUrl == Some(c) && docs[i].documentBodyHash == h;
          if i < n { assert front[i] == docs[i]; }
        }
        if h in ClaimantHashes(front, c) {
          var i :| 0 <= i < |front| && ClaimsCanonical(front[i]) && front[i].canonicalUrl == Some(c) && front[i].documentBodyHash == h;
          assert docs[i] == front[i];
        }
      }
    }
  }

  /** Every document URL is known after the first pass. */
  lemma {:induction false} KnownUrlsAreDocumentUrls(docs: seq<CrawledDocument>, u: Option<string>)
    ensures u in KnownUrls(docs) <==> exists i :: 0 <= i < |docs| && docs[i].url == u
  {
    if docs != [] {
      var n := |docs| - 1;
      KnownUrlsAreDocumentUrls(docs[..n], u);
      if exists i :: 0 <= i < |docs| && docs[i].url == u {
        var i :| 0 <= i < |docs| && docs[i].url == u;
        if i < n { assert docs[..n][i] == docs[i]; }
      }
      if exists i :: 0 <= i < n && docs[..n][i].url == u {
        var i :| 0 <= i < n && docs[..n][i].url == u;
        assert docs[i] == docs[..n][i];
      }
    }
  }

  /** The document claims a canonical that more than one distinct body claims. */
  predicate Contested(d: CrawledDocument, claims: map<string, set<Option<string>>>) {
    ClaimsCanonical(d) && |HashesOf(claims, d.canonicalUrl.value)| > 1
  }

  /** Some earlier document claims the same canonical as document `i`. */
  predicate ClaimedEarlier(docs: seq<CrawledDocument>, i: int)
    requires 0 <= i < |docs|
  {
    exists j :: 0 <= j < i && ClaimsCanonical(docs[j]) && docs[j].canonicalUrl == docs[i].canonicalUrl
  }

  /** Second pass, document by document: a contested canonical is reclaimed
      by its first claimant when it is not a document URL; every other
      claimant is marked BAD_CANONICAL. */
  function ReclaimAt(docs: seq<CrawledDocument>, claims: map<string, set<Option<string>>>,
                     urls: set<Option<string>>, i: int): CrawledDocument
    requires 0 <= i < |docs|
  {
    var d := docs[i];
    if Contested(d, claims) then
      if d.canonicalUrl !in urls && !ClaimedEarlier(docs, i) then d.(canonicalUrl := d.url)
      else d.(crawlerStatus := BadCanonical)
    else d
  }

  function ReclaimPass(docs: seq<CrawledDocument>): (r: seq<CrawledDocument>)
    ensures |r| == |docs|
  {
    seq(|docs|, i requires 0 <= i < |docs| => ReclaimAt(docs, ClaimedHashes(docs), KnownUrls(docs), i))
  }

  /** Third pass: a document still pointing at a contested canonical points at itself. */
  function SelfCanonicalAt(d: CrawledDocument, claims: map<string, set<Option<string>>>): CrawledDocument {
    if Contested(d, claims) then d.(canonicalUrl := d.url) else d
  }

  function SelfCanonicalPass(docs: seq<CrawledDocument>, claims: map<string, set<Option<string>>>): (r: seq<CrawledDocument>)
    ensures |r| == |docs|
  {
    seq(|docs|, i requires 0 <= i < |docs| => SelfCanonicalAt(docs[i], claims))
  }

  /** Fourth pass: a canonical on another domain than the document's own is
      replaced by the document's URL; `domainOf` is EdgeUrl.parse followed by
      the domain, None where parsing fails. */
  function CrossDomainAt(d: CrawledDocument, domainOf: Option<string> -> Option<string>): CrawledDocument {
    if IsNullOrEmpty(d.canonicalUrl) then d
    else
      var c := domainOf(d.canonicalUrl);
      var u := domainOf(d.url);
      if c.Some? && u.Some? && c.value != u.value then d.(canonicalUrl := d.url) else d
  }

  function CrossDomainPass(docs: seq<CrawledDocument>, domainOf: Option<string> -> Option<string>): (r: seq<CrawledDocument>)
    ensures |r| == |docs|
  {
    seq(|docs|, i requires 0 <= i < |docs| => CrossDomainAt(docs[i], domainOf))
  }

  /** The documents after all four passes. */
  function Repaired(docs: seq<CrawledDocument>, domainOf: Option<string> -> Option<string>): (r: seq<CrawledDocument>)
    ensures |r| == |docs|
  {
    CrossDomainPass(SelfCanonicalPass(ReclaimPass(docs), ClaimedHashes(docs)), domainOf)
  }

  /** The outcome for one document: a contested document ends self-canonical,
      keeping its status only when it reclaimed the canonical; any other
      document sees only the cross-domain pass. */
  lemma RepairedAt(docs: seq<CrawledDocument>, domainOf: Option<string> -> Option<string>, i: int)
    requires 0 <= i < |docs|
    ensures var d := docs[i];
            var r := Repaired(docs, domainOf)[i];
            if Contested(d, ClaimedHashes(docs)) then
              r.canonicalUrl == d.url && r.url == d.url && r.documentBodyHash == d.documentBodyHash
              && r.crawlerStatus == (if d.canonicalUrl !in KnownUrls(docs) && !ClaimedEarlier(docs, i)
                                     then d.crawlerStatus else BadCanonical)
            else r == CrossDomainAt(d, domainOf)
  {
    var claims := ClaimedHashes(docs);
    var p2 := ReclaimPass(docs);
    var p3 := SelfCanonicalPass(p2, claims);
    assert p2[i] == ReclaimAt(docs, claims, KnownUrls(docs), i);
    assert p3[i] == SelfCanonicalAt(p2[i], claims);
    assert Repaired(docs, domainOf)[i] == CrossDomainAt(p3[i], domainOf);
  }

  /** Only canonicalUrl and crawlerStatus ever change; a rewritten canonical
      is always the document's own URL and a rewritten status is always
      BAD_CANONICAL. */
  lemma RepairChangesOnlyCanonicalAndStatus(docs: seq<CrawledDocument>, domainOf: Option<string> -> Option<string>)
    ensures forall i :: 0 <= i < |docs| ==>
      var r := Repaired(docs, domainOf)[i];
      r.url == docs[i].url && r.documentBodyHash == docs[i].documentBodyHash
      && (r.canonicalUrl == docs[i].canonicalUrl || r.canonicalUrl == docs[i].url)
      && (r.crawlerStatus == docs[i].crawlerStatus || r.crawlerStatus == BadCanonical)
  {
    forall i | 0 <= i < |docs| {
      RepairedAt(docs, domainOf, i);
    }
  }

  /** A document without a canonical, with an empty one, or whose canonical
      is its own URL, comes out of the repair unchanged. */
  lemma RepairKeepsTrivialCanonicals(docs: seq<CrawledDocument>, domainOf: Option<string> -> Option<string>)
    ensures forall i :: 0 <= i < |docs| && !ClaimsCanonical(docs[i]) ==> Repaired(docs, domainOf)[i] == docs[i]
  {
    forall i | 0 <= i < |docs| && !ClaimsCanonical(docs[i]) {
      RepairedAt(docs, domainOf, i);
    }
  }

  /** After the repair no document names a canonical that the first pass
      found claimed by more than one distinct body. */
  lemma RepairLeavesNoContestedCanonical(docs: seq<CrawledDocument>, domainOf: Option<string> -> Option<string>)
    ensures forall i :: 0 <= i < |docs| ==> !Contested(Repaired(docs, domainOf)[i], ClaimedHashes(docs))
  {
    forall i | 0 <= i < |docs| {
      RepairedAt(docs, domainOf, i);
    }
  }

  /** The reclaim rule: of the documents claiming a contested canonical that
      is not a document URL, exactly the first keeps its status; every other
      one, and every claimant of a contested canonical that is a document URL,
      is BAD_CANONICAL; all of them end self-canonical. */
  lemma RepairReclaimsForFirstClaimant(docs: seq<CrawledDocument>, domainOf: Option<string> -> Option<string>, i: int)
    requires 0 <= i < |docs| && Contested(docs[i], ClaimedHashes(docs))
    requires docs[i].crawlerStatus != BadCanonical
    ensures Repaired(docs, domainOf)[i].canonicalUrl == docs[i].url
    ensures Repaired(docs, domainOf)[i].crawlerStatus == BadCanonical
            <==> (exists j :: 0 <= j < |docs| && docs[j].url == docs[i].canonicalUrl)
                 || (exists j :: 0 <= j < i && ClaimsCanonical(docs[j]) && docs[j].canonicalUrl == docs[i].canonicalUrl)
  {
    RepairedAt(docs, domainOf, i);
    KnownUrlsAreDocumentUrls(docs, docs[i].canonicalUrl);
  }

  /** After the repair no canonical that parses names another domain than
      the document's URL, when that parses too. */
  lemma RepairLeavesNoCrossDomainCanonical(docs: seq<CrawledDocument>, domainOf: Option<string> -> Option<string>)
    ensures forall i :: 0 <= i < |docs| ==>
      var r := Repaired(docs, domainOf)[i];
      !IsNullOrEmpty(r.canonicalUrl) && domainOf(r.canonicalUrl).Some? && domainOf(r.url).Some?
      ==> domainOf(r.canonicalUrl) == domainOf(r.url)
  {
    forall i | 0 <= i < |docs| {
      RepairedAt(docs, domainOf, i);
    }
  }

  /** An uncontested canonical that does not parse is left exactly as it was. */
  lemma RepairKeepsUnparseableCanonicals(docs: seq<CrawledDocument>, domainOf: Option<string> -> Option<string>, i: int)
    requires 0 <= i < |docs| && !Contested(docs[i], ClaimedHashes(docs))
    requires domainOf(docs[i].canonicalUrl).None?
    ensures Repaired(docs, domainOf)[i] == docs[i]
  {
    RepairedAt(docs, domainOf, i);
  }

  /** Three documents where A and C, with different bodies, name B while B
      names itself: B is already a document URL, so neither A nor C can
      reclaim it. Both end BAD_CANONICAL and self-canonical; B is untouched. */
  lemma BlanketCanonicalOntoExistingPage(a: string, b: string, c: string, domainOf: Option<string> -> Option<string>)
    requires a != b && b != c && a != c && b != ""
    ensures var docs := [CrawledDocument(Some(a), Some(b), Some("h1"), "OK"),
                         CrawledDocument(Some(b), Some(b), Some("h2"), "OK"),
                         CrawledDocument(Some(c), Some(b), Some("h3"), "OK")];
            Repaired(docs, domainOf) == [CrawledDocument(Some(a), Some(a), Some("h1"), BadCanonical),
                                         CrawledDocument(Some(b), Some(b), Some("h2"), "OK"),
                                         CrawledDocument(Some(c), Some(c), Some("h3"), BadCanonical)]
  {
    var docs := [CrawledDocument(Some(a), Some(b), Some("h1"), "OK"),
                 CrawledDocument(Some(b), Some(b), Some("h2"), "OK"),
                 CrawledDocument(Some(c), Some(b), Some("h3"), "OK")];
    BlanketClaims(docs, a, b, c);
    var r := Repaired(docs, domainOf);
    RepairedAt(docs, domainOf, 0);
    RepairedAt(docs, domainOf, 1);
    RepairedAt(docs, domainOf, 2);
    assert r[0] == CrawledDocument(Some(a), Some(a), Some("h1"), BadCanonical);
    assert r[1] == CrawledDocument(Some(b), Some(b), Some("h2"), "OK");
    assert r[2] == CrawledDocument(Some(c), Some(c), Some("h3"), BadCanonical);
  }

  /** The first pass over the three documents: A and C contest B, and B is a document URL. */
  lemma BlanketClaims(docs: seq<CrawledDocument>, a: string, b: string, c: string)
    requires a != b && b != c && a != c && b != ""
    requires docs == [CrawledDocument(Some(a), Some(b), Some("h1"), "OK"),
                      CrawledDocument(Some(b), Some(b), Some("h2"), "OK"),
                      CrawledDocument(Some(c), Some(b), Some("h3"), "OK")]
    ensures Contested(docs[0], ClaimedHashes(docs)) && Contested(docs[2], ClaimedHashes(docs))
    ensures !Contested(docs[1], ClaimedHashes(docs))
    ensures Some(b) in KnownUrls(docs)
  {
    var claims := ClaimedHashes(docs);
    ClaimedHashesAreClaimantHashes(docs, b);
    assert ClaimantHashes(docs, b) == {Some("h1"), Some("h3")} by {
      assert ClaimsCanonical(docs[0]) && ClaimsCanonical(docs[2]) && !ClaimsCanonical(docs[1]);
    }
    assert "h1" != "h3";
    assert |HashesOf(claims, b)| == 2;
    KnownUrlsAreDocumentUrls(docs, Some(b));
    assert docs[1].url == Some(b);
  }

  /** First pass: the body hashes claiming each canonical, and every document URL. */
  method CollectClaims(docs: array<CrawledDocument>)
    returns (seenCanonicals: map<string, set<Option<string>>>, seenUrls: set<Option<string>>)
    ensures seenCanonicals == ClaimedHashes(docs[..])
    ensures seenUrls == KnownUrls(docs[..])
  {
    seenCanonicals := map[];
    seenUrls := {};
    var i := 0;
    while i < docs.Length
      invariant 0 <= i <= docs.Length
      invariant seenCanonicals == ClaimedHashes(docs[..i])
      invariant seenUrls == KnownUrls(docs[..i])
    {
      var d := docs[i];
      if ClaimsCanonical(d) {
        var c := d.canonicalUrl.value;
        seenCanonicals := seenCanonicals[c := HashesOf(seenCanonicals, c) + {d.documentBodyHash}];
      }
      seenUrls := seenUrls + {d.url};
      assert docs[..i + 1][..i] == docs[..i];
      i := i + 1;
    }
    assert docs[..i] == docs[..];
  }

  /** Second pass, in place; seenUrls grows by each canonical reclaimed. */
  method ReclaimContested(docs: array<CrawledDocument>, seenCanonicals: map<string, set<Option<string>>>,
                          seenUrls: set<Option<string>>)
    requires seenCanonicals == ClaimedHashes(docs[..]) && seenUrls == KnownUrls(docs[..])
    modifies docs
    ensures docs[..] == ReclaimPass(old(docs[..]))
  {
    ghost var original := docs[..];
    var urls := seenUrls;
    var i := 0;
    while i < docs.Length
      invariant 0 <= i <= docs.Length
      invariant forall j :: 0 <= j < i ==> docs[j] == ReclaimAt(original, seenCanonicals, seenUrls, j)
      invariant forall j :: i <= j < docs.Length ==> docs[j] == original[j]
      invariant forall u :: u in urls <==> u in seenUrls || exists j :: 0 <= j < i && Contested(original[j], seenCanonicals) && original[j].canonicalUrl == u
    {
      var d := docs[i];
      if Contested(d, seenCanonicals) {
        if d.canonicalUrl !in urls {
          assert !ClaimedEarlier(original, i);
          urls := urls + {d.canonicalUrl};
          docs[i] := d.(canonicalUrl := d.url);
        } else {
          assert d.canonicalUrl in seenUrls || ClaimedEarlier(original, i);
          docs[i] := d.(crawlerStatus := BadCanonical);
        }
      }
      i := i + 1;
    }
    assert docs[..] == ReclaimPass(original);
  }

  /** Third pass, in place. */
  method RestoreSelfCanonicals(docs: array<CrawledDocument>, seenCanonicals: map<string, set<Option<string>>>)
    modifies docs
    ensures docs[..] == SelfCanonicalPass(old(docs[..]), seenCanonicals)
  {
    ghost var original := docs[..];
    var i := 0;
    while i < docs.Length
      invariant 0 <= i <= docs.Length
      invariant forall j :: 0 <= j < i ==> docs[j] == SelfCanonicalAt(original[j], seenCanonicals)
      invariant forall j :: i <= j < docs.Length ==> docs[j] == original[j]
    {
      var d := docs[i];
      if Contested(d, seenCanonicals) {
        docs[i] := d.(canonicalUrl := d.url);
      }
      i := i + 1;
    }
    assert docs[..] == SelfCanonicalPass(original, seenCanonicals);
  }

  /** Fourth pass, in place. */
  method DropCrossDomainCanonicals(docs: array<CrawledDocument>, domainOf: Option<string> -> Option<string>)
    modifies docs
    ensures docs[..] == CrossDomainPass(old(docs[..]), domainOf)
  {
    ghost var original := docs[..];
    var i := 0;
    while i < docs.Length
      invariant 0 <= i <= docs.Length
      invariant forall j :: 0 <= j < i ==> docs[j] == CrossDomainAt(original[j], domainOf)
      invariant forall j :: i <= j < docs.Length ==> docs[j] == original[j]
    {
      var d := docs[i];
      if !IsNullOrEmpty(d.canonicalUrl) {
        var c := domainOf(d.canonicalUrl);
        var u := domainOf(d.url);
        if c.Some? && u.Some? && c.value != u.value {
          docs[i] := d.(canonicalUrl := d.url);
        }
      }
      i := i + 1;
    }
    assert docs[..] == CrossDomainPass(original, domainOf);
  }

  /** fixBadCanonicalTags: the four passes, in place over the document list. */
  method FixBadCanonicalTags(docs: array<CrawledDocument>, domainOf: Option<string> -> Option<string>)
    modifies docs
    ensures docs[..] == Repaired(old(docs[..]), domainOf)
  {
    var seenCanonicals, seenUrls := CollectClaims(docs);
    ReclaimContested(docs, seenCanonicals, seenUrls);
    RestoreSelfCanonicals(docs, seenCanonicals);
    DropCrossDomainCanonicals(docs, domainOf);
  }
}
