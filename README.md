# Converter core of the search engine: domain processing and index hand-off

This project models the part of the crawl-data converter that turns one
crawled domain into a processed domain, and the index service call that
hands a document's keywords to the index journal. It covers:

- **The legacy `DomainProcessor.process`.** It repairs the canonical tags of
  the crawled documents in four passes (`fixBadCanonicalTags`) and processes
  each document. A document is kept when it has a URL. Quality values and
  language rejections are offered to the `DocumentDisqualifier`. The pass
  then flags common site words (`Site`) and link-adjacent words
  (`SiteAdjacent`) in the PAGE_DATA blocks. Finally it maps the crawler
  status to an indexing state.
- **The current `DomainProcessor`.** `createWritable` chooses between
  sideload and full processing by file size. `fullProcessing` reads the
  crawl data stream and keeps one document per new URL. Then
  `calculateStatistics` sets each document's size and topology and runs the
  site-word passes. `processDomain` and `addIpInfo` derive the domain's
  fields and its decorator terms: IP, country, AS number and organisation,
  `special:cloud` and `special:academia`. Sideload processing iterates
  through the stream with `DocumentsIterator`.
- **`KeywordMetadata.getMetadataForWord`.** It computes the flags a stemmed
  word earns from one document's extractors, plus the tf-idf value and the
  position bitmask handed to the encoder.
- **`EdgeIndexLocalService`.** `getOrInsertWordIds` packs (word id,
  metadata) pairs into a `long` array and cuts the array to the filled
  part. `putWords` writes one journal entry per chunk of keywords, after
  rejecting an empty keyword list and non-positive ids.

Modules, one per file:

| module | file |
|---|---|
| `Common` | `common.dfy`: Option, Java string operations (contains, endsWith, ASCII lower case, isBlank, StringUtils.split, decimal printing) |
| `CrawlerStatus` | `crawler_status.dfy`: CrawlerDomainStatus.valueOf and getState |
| `WordFlags` | `word_flags.dfy`: the word flags and unpacked word metadata |
| `KeywordExtraction` | `keyword_extraction.dfy` |
| `CanonicalRepair` | `canonical_repair.dfy`: fixBadCanonicalTags over an array, specified by `Repaired` |
| `LegacySiteWords` | `legacy_site_words.dfy`: the flag passes of the legacy processor |
| `LegacyDomainProcessor` | `legacy_domain_processor.dfy`: process, DocumentDisqualifier, ProcessedDomain |
| `DomainProcessor` | `domain_processor.dfy`: the current processor, specified by the left fold `Ingest` over the stream |
| `SideloadIteration` | `documents_iterator.dfy`: SideloadProcessing and its DocumentsIterator |
| `EdgeIndexLocalService` | `index_local_service.dfy` |

Collaborators whose code is not part of this model are parameters, grouped
in the datatypes `Collaborators` (legacy) and `Environment` (current):

- the document processor;
- the link graph and its inversion;
- the common-keyword extractor and the site-words passes;
- geo-IP lookups and the top-domain function;
- `EdgeUrl.parse` followed by taking the domain;
- the anchor-tag counts;
- the lexicon;
- `WordMetadata.encode`.

## Model

Source paths are relative to the repository root.

| member | source | states |
|---|---|---|
| CrawlerStatus.ValueOf | marginalia_nu/src/main/java/nu/marginalia/wmsa/edge/converting/processor/DomainProcessor.java:211 | valueOf yields the constant whose name is exactly the string, and yields nothing (Java throws) when no constant has that name |
| CrawlerStatus.StateForStatus | marginalia_nu/src/main/java/nu/marginalia/wmsa/edge/converting/processor/DomainProcessor.java:210-217 | ACTIVE iff "OK", REDIR iff "REDIRECT", BLOCKED iff "BLOCKED", ERROR iff "ERROR", and no state (an exception) iff the status names no constant |
| WordFlags.WithFlag | marginalia_nu/src/main/java/nu/marginalia/wmsa/edge/converting/processor/DomainProcessor.java:109 | setting a flag on a word's metadata adds that flag and keeps the tf-idf, the positions and every other flag |
| KeywordExtraction.KeywordMetadata.FlagsForWord | code/features-convert/keyword-extraction/src/main/java/nu/marginalia/keyword_extraction/KeywordMetadata.java:38-57 | a flag is in the set iff the word earns it: TfIdfHigh iff tf-idf > 100, Subjects, NamesWords, Title, UrlPath, UrlDomain iff the word is in that extractor's keywords; only these six flags can appear |
| KeywordExtraction.KeywordMetadata.MetadataRecordForWord | code/features-convert/keyword-extraction/src/main/java/nu/marginalia/keyword_extraction/KeywordMetadata.java:36-61 | the record passes the tf-idf value and the position bitmask through unchanged, has TfIdfHigh iff its tf-idf exceeds 100, and never carries Site or SiteAdjacent |
| KeywordExtraction.KeywordMetadata.GetMetadataForWord | code/features-convert/keyword-extraction/src/main/java/nu/marginalia/keyword_extraction/KeywordMetadata.java:36-61 | the result is the encoding of the word's tf-idf, positions and earned flags |
| CanonicalRepair.ClaimedHashesAreClaimantHashes | marginalia_nu/src/main/java/nu/marginalia/wmsa/edge/converting/processor/DomainProcessor.java:166-171 | the first pass records, for each canonical, exactly the body hashes of the documents that claim it |
| CanonicalRepair.KnownUrlsAreDocumentUrls | marginalia_nu/src/main/java/nu/marginalia/wmsa/edge/converting/processor/DomainProcessor.java:170 | a URL is recorded as seen iff some document has it |
| CanonicalRepair.RepairedAt | marginalia_nu/src/main/java/nu/marginalia/wmsa/edge/converting/processor/DomainProcessor.java:173-207 | a contested document ends self-canonical and keeps its status only when its canonical is not a document URL and no earlier document claims it; any other document only sees the cross-domain pass |
| CanonicalRepair.RepairChangesOnlyCanonicalAndStatus | marginalia_nu/src/main/java/nu/marginalia/wmsa/edge/converting/processor/DomainProcessor.java:159-208 | the repair changes only canonicalUrl, always to the document's own URL, and crawlerStatus, always to BAD_CANONICAL |
| CanonicalRepair.RepairKeepsTrivialCanonicals | marginalia_nu/src/main/java/nu/marginalia/wmsa/edge/converting/processor/DomainProcessor.java:167 | a document with a null, empty or self canonical comes out unchanged |
| CanonicalRepair.RepairLeavesNoContestedCanonical | marginalia_nu/src/main/java/nu/marginalia/wmsa/edge/converting/processor/DomainProcessor.java:187-193 | afterwards no document names a canonical that more than one distinct body claimed |
| CanonicalRepair.RepairReclaimsForFirstClaimant | marginalia_nu/src/main/java/nu/marginalia/wmsa/edge/converting/processor/DomainProcessor.java:173-185 | a claimant of a contested canonical ends self-canonical; it is BAD_CANONICAL iff the canonical is some document's URL or an earlier document claims it too |
| CanonicalRepair.RepairLeavesNoCrossDomainCanonical | marginalia_nu/src/main/java/nu/marginalia/wmsa/edge/converting/processor/DomainProcessor.java:195-207 | afterwards a canonical that parses never names a different domain from the document's parsed URL |
| CanonicalRepair.RepairKeepsUnparseableCanonicals | marginalia_nu/src/main/java/nu/marginalia/wmsa/edge/converting/processor/DomainProcessor.java:201-204 | an uncontested canonical that does not parse is left as it was |
| CanonicalRepair.BlanketCanonicalOntoExistingPage | marginalia_nu/src/main/java/nu/marginalia/wmsa/edge/converting/processor/DomainProcessor.java:163-185 | with A and C (different bodies) naming B and B naming itself, A and C both end BAD_CANONICAL and self-canonical, and B is untouched |
| CanonicalRepair.CollectClaims | marginalia_nu/src/main/java/nu/marginalia/wmsa/edge/converting/processor/DomainProcessor.java:166-171 | the first loop computes the claimed hashes per canonical and the set of document URLs |
| CanonicalRepair.ReclaimContested | marginalia_nu/src/main/java/nu/marginalia/wmsa/edge/converting/processor/DomainProcessor.java:173-185 | the second loop rewrites the array into the reclaim pass of the original documents |
| CanonicalRepair.RestoreSelfCanonicals | marginalia_nu/src/main/java/nu/marginalia/wmsa/edge/converting/processor/DomainProcessor.java:187-193 | the third loop makes every still-contested document self-canonical |
| CanonicalRepair.DropCrossDomainCanonicals | marginalia_nu/src/main/java/nu/marginalia/wmsa/edge/converting/processor/DomainProcessor.java:197-207 | the fourth loop replaces each cross-domain canonical with the document's URL |
| CanonicalRepair.FixBadCanonicalTags | marginalia_nu/src/main/java/nu/marginalia/wmsa/edge/converting/processor/DomainProcessor.java:159-208 | the array ends as `Repaired` of its old contents, the function the lemmas above characterise |
| LegacySiteWords.FlagWordsInBlock | marginalia_nu/src/main/java/nu/marginalia/wmsa/edge/converting/processor/DomainProcessor.java:109 | every keyword of the block keeps its word; those in the word set gain the flag and the others are unchanged |
| LegacySiteWords.FlagDocument | marginalia_nu/src/main/java/nu/marginalia/wmsa/edge/converting/processor/DomainProcessor.java:105-113 | only the PAGE_DATA blocks of a document with words change; url, state reason, quality and the block keys are kept |
| LegacySiteWords.FlagDocumentIsOrMerge | marginalia_nu/src/main/java/nu/marginalia/wmsa/edge/converting/processor/DomainProcessor.java:105-113 | after flagging, a keyword carries the flag iff it did before, or its block is PAGE_DATA and its word is in the set |
| LegacySiteWords.FlagWithNoWordsIsIdentity | marginalia_nu/src/main/java/nu/marginalia/wmsa/edge/converting/processor/DomainProcessor.java:101-103 | flagging with an empty word set changes nothing, so the early return is only a shortcut |
| LegacySiteWords.AdjacentKeywords | marginalia_nu/src/main/java/nu/marginalia/wmsa/edge/converting/processor/DomainProcessor.java:121-134 | a word is adjacent to a page iff it occurs more than three times among the linking pages' keywords and is one of the page's candidates |
| LegacySiteWords.LinkedKeywords | marginalia_nu/src/main/java/nu/marginalia/wmsa/edge/converting/processor/DomainProcessor.java:119-138 | a page of the inverted graph is in the map iff it has some adjacent word, and it maps to exactly its adjacent words |
| LegacySiteWords.OccurrencesCountPages | marginalia_nu/src/main/java/nu/marginalia/wmsa/edge/converting/processor/DomainProcessor.java:124-128 | with duplicate-free keyword lists, a word's count is the number of linking pages that list it |
| LegacySiteWords.MergeKeywords | marginalia_nu/src/main/java/nu/marginalia/wmsa/edge/converting/processor/DomainProcessor.java:125-127 | after merging one page's keywords, the counts tally the earlier occurrences plus each keyword of that page once per listing |
| LegacySiteWords.CountLinkedKeywords | marginalia_nu/src/main/java/nu/marginalia/wmsa/edge/converting/processor/DomainProcessor.java:122-128 | the counts map has exactly the words that occur, each with its number of occurrences over all linking pages |
| LegacySiteWords.KeptWordsAreAdjacent | marginalia_nu/src/main/java/nu/marginalia/wmsa/edge/converting/processor/DomainProcessor.java:130-134 | filtering the counts (> 3, candidate) yields the page's adjacent words |
| LegacySiteWords.CollectLinkedKeywords | marginalia_nu/src/main/java/nu/marginalia/wmsa/edge/converting/processor/DomainProcessor.java:117-138 | the forEach builds exactly `LinkedKeywords` |
| LegacySiteWords.FlagAdjacentCharacterized | marginalia_nu/src/main/java/nu/marginalia/wmsa/edge/converting/processor/DomainProcessor.java:140-153 | a keyword carries SiteAdjacent iff it did before, or it is in a PAGE_DATA block, occurs more than three times among the linking pages' keywords and is a candidate of the document |
| LegacyDomainProcessor.DocumentDisqualifier.Offer | marginalia_nu/src/main/java/nu/marginalia/wmsa/edge/converting/processor/DomainProcessor.java:223-228 | the count grows by one, the good count by one iff the quality exceeds the minimum, and the good count never exceeds the count |
| LegacyDomainProcessor.KeptDocuments | marginalia_nu/src/main/java/nu/marginalia/wmsa/edge/converting/processor/DomainProcessor.java:58-79 | at most one processed document per crawled document, each with a URL |
| LegacyDomainProcessor.KeptDocumentsAppend | marginalia_nu/src/main/java/nu/marginalia/wmsa/edge/converting/processor/DomainProcessor.java:58-80 | the documents kept from a concatenation are those kept from each part, in order |
| LegacyDomainProcessor.KeptDocumentsKeepEveryUrl | marginalia_nu/src/main/java/nu/marginalia/wmsa/edge/converting/processor/DomainProcessor.java:62-63 | every processed document with a URL is kept |
| LegacyDomainProcessor.CountAboveAtMostOffers | marginalia_nu/src/main/java/nu/marginalia/wmsa/edge/converting/processor/DomainProcessor.java:220-227 | the good count is at most the count, and equals it iff every offered quality exceeds the minimum |
| LegacyDomainProcessor.CommonFlagged | marginalia_nu/src/main/java/nu/marginalia/wmsa/edge/converting/processor/DomainProcessor.java:95-114 | each document is flagged Site with the common site words, including when there are none (the early return) |
| LegacyDomainProcessor.DomainDocumentsFlagOnlyPageData | marginalia_nu/src/main/java/nu/marginalia/wmsa/edge/converting/processor/DomainProcessor.java:82-83 | the flag passes keep every document in place with its url, state reason and quality, and change only the PAGE_DATA blocks of documents with words |
| LegacyDomainProcessor.DomainDocumentsFlags | marginalia_nu/src/main/java/nu/marginalia/wmsa/edge/converting/processor/DomainProcessor.java:82-83 | after process a keyword has Site iff it had it or is a common site word in a PAGE_DATA block, and SiteAdjacent iff it had it or is link-adjacent in a PAGE_DATA block |
| LegacyDomainProcessor.FlagLinkedDocuments | marginalia_nu/src/main/java/nu/marginalia/wmsa/edge/converting/processor/DomainProcessor.java:140-153 | every document becomes its flagged form under the linked keywords (documents without words or without linked keywords unchanged), and the domain, ip, redirect and state are unchanged |
| LegacyDomainProcessor.DocumentDisqualifier.IsQualified | marginalia_nu/src/main/java/nu/marginalia/wmsa/edge/converting/processor/DomainProcessor.java:230-233 | every document qualifies, whatever qualities have been offered; the count-based policy is switched off |
| LegacyDomainProcessor.FlagCommonSiteWords | marginalia_nu/src/main/java/nu/marginalia/wmsa/edge/converting/processor/DomainProcessor.java:95-114 | the domain's documents become `CommonFlagged` of the old ones; no other field changes |
| LegacyDomainProcessor.FlagAdjacentSiteWords | marginalia_nu/src/main/java/nu/marginalia/wmsa/edge/converting/processor/DomainProcessor.java:116-156 | the domain's documents become the SiteAdjacent-flagged old ones under `LinkedKeywords` of the graph; no other field changes |
| LegacyDomainProcessor.ProcessDocuments | marginalia_nu/src/main/java/nu/marginalia/wmsa/edge/converting/processor/DomainProcessor.java:57-80 | the loop adds exactly `KeptDocuments` of the crawled documents |
| LegacyDomainProcessor.Process | marginalia_nu/src/main/java/nu/marginalia/wmsa/edge/converting/processor/DomainProcessor.java:40-93 | the document list is repaired in place; no result (an exception) iff the status names no constant; otherwise domain, ip, redirect, state, and the kept then flagged documents (empty without a document list) |
| DomainProcessor.IsCloudy | code/processes/converting-process/src/main/java/nu/marginalia/converting/processor/DomainProcessor.java:292-315 | true iff the organisation contains one of the six cloud provider names |
| DomainProcessor.AcademicPatternMatches | code/processes/converting-process/src/main/java/nu/marginalia/converting/processor/DomainProcessor.java:318 | the two-position test agrees with the regular expression `.*\.(ac|edu)\.[a-z]{2}$` matched over the whole string |
| DomainProcessor.IsAcademicDomain | code/processes/converting-process/src/main/java/nu/marginalia/converting/processor/DomainProcessor.java:318-328 | true iff the top domain ends in ".edu" or matches the academic pattern |
| DomainProcessor.OrgTerms | code/processes/converting-process/src/main/java/nu/marginalia/converting/processor/DomainProcessor.java:280-282 | every term is "as:" followed by a non-empty lower-cased token with no '-', and the tokens in order spell the organisation lower-cased with its '-' characters removed |
| Common.SplitIsMaximalRuns | code/processes/converting-process/src/main/java/nu/marginalia/converting/processor/DomainProcessor.java:280 | splitting on a separator yields the maximal runs of other characters: joined with single separators they give the input with leading and trailing separators dropped and inner runs collapsed to one |
| DomainProcessor.IpTermsAreTagged | code/processes/converting-process/src/main/java/nu/marginalia/converting/processor/DomainProcessor.java:267-290 | every term addIpInfo adds starts with "ip:" or "as:", or is "special:cloud" |
| DomainProcessor.DomainTermsCharacterized | code/processes/converting-process/src/main/java/nu/marginalia/converting/processor/DomainProcessor.java:254-258 | the first term is "ip:" and the IP ("null" when absent); the country term is present when the country is not blank; the AS number term is present with an AS; special:cloud iff the AS is cloudy; special:academia iff the domain is academic |
| DomainProcessor.ProcessDomain | code/processes/converting-process/src/main/java/nu/marginalia/converting/processor/DomainProcessor.java:247-264 | no result iff getState throws; otherwise domain and ip from the record, the redirect replaced only when the record has one, and the state from the status |
| DomainProcessor.IngestStep | code/processes/converting-process/src/main/java/nu/marginalia/converting/processor/DomainProcessor.java:203-236 | proof step for the ingest loop: reading one more record applies IngestRecord to the state after the prefix |
| DomainProcessor.IngestRecord | code/processes/converting-process/src/main/java/nu/marginalia/converting/processor/DomainProcessor.java:203-236 | one record: after a failure nothing changes; at most one document is appended, and only for a document record with a URL not seen before; seen URLs only grow; the ingest fails iff it had failed or this is a domain record whose status names no state |
| DomainProcessor.IngestFailureIsFinal | code/processes/converting-process/src/main/java/nu/marginalia/converting/processor/DomainProcessor.java:187-238 | once an exception leaves the loop, the rest of the stream changes nothing |
| DomainProcessor.IngestAppendsInStreamOrder | code/processes/converting-process/src/main/java/nu/marginalia/converting/processor/DomainProcessor.java:224-231 | documents are only appended: those kept from a prefix come first and in order, and processed URLs only grow |
| DomainProcessor.IngestedUrlsAreDistinct | code/processes/converting-process/src/main/java/nu/marginalia/converting/processor/DomainProcessor.java:224-225 | with a URL-keeping processor, every kept URL is recorded as processed and no URL is kept twice |
| DomainProcessor.IngestedDocumentsComeFromTheStream | code/processes/converting-process/src/main/java/nu/marginalia/converting/processor/DomainProcessor.java:222-231 | every kept document is what the processor made of a document record of the stream that has a URL |
| DomainProcessor.IngestDocumentRecord | code/processes/converting-process/src/main/java/nu/marginalia/converting/processor/DomainProcessor.java:222-234 | a document with no URL or a seen URL adds nothing; a new URL is recorded, and the processed document is added unless processing threw |
| DomainProcessor.StatisticsCharacterized | code/processes/converting-process/src/main/java/nu/marginalia/converting/processor/DomainProcessor.java:339-350 | the statistics fail iff some document needs them and there are no external links; otherwise documents without details or metadata are unchanged and the others get the graph size and in-links plus external links as topology, other fields kept |
| DomainProcessor.CalculateStatistics | code/processes/converting-process/src/main/java/nu/marginalia/converting/processor/DomainProcessor.java:330-354 | the loop computes `WithStatistics`, then the site words are applied; it fails exactly when `WithStatistics` does |
| DomainProcessor.NoDomainRecordNoDocuments | code/processes/converting-process/src/main/java/nu/marginalia/converting/processor/DomainProcessor.java:216-220 | a non-empty stream without a domain record never completes: ret.documents is never set |
| DomainProcessor.CompletedDomainHasState | code/processes/converting-process/src/main/java/nu/marginalia/converting/processor/DomainProcessor.java:216-220 | once a domain record is attached, the domain has a state, taken from a domain record of the stream |
| DomainProcessor.FullProcessing | code/processes/converting-process/src/main/java/nu/marginalia/converting/processor/DomainProcessor.java:187-245 | the loop computes `FullProcessingOutcome`, and the result is null iff the stream is empty |
| DomainProcessor.OpenSideload | code/processes/converting-process/src/main/java/nu/marginalia/converting/processor/DomainProcessor.java:78-111 | a sideload opens iff the first record is a domain record with a known status; the domain name, ip and state (the status mapped as processDomain maps it) and the terms come from that record |
| DomainProcessor.CreateWritable | code/processes/converting-process/src/main/java/nu/marginalia/converting/processor/DomainProcessor.java:66-76 | sideload iff the file size is known and exceeds 10,000,000 bytes; otherwise full processing |
| SideloadIteration.Sideloaded | code/processes/converting-process/src/main/java/nu/marginalia/converting/processor/DomainProcessor.java:141-145 | a fully processed document with metadata gets size 10,000 and its external link count as topology; a document not fully processed is unchanged |
| SideloadIteration.YieldedUrlsAreNew | code/processes/converting-process/src/main/java/nu/marginalia/converting/processor/DomainProcessor.java:133 | the stream never yields an already processed URL, nor the same URL twice |
| SideloadIteration.DocumentsIterator.HasNextAsWritten | code/processes/converting-process/src/main/java/nu/marginalia/converting/processor/DomainProcessor.java:126-155 | the pending documents are unchanged, and the answer is true iff nothing was buffered and a document is pending |
| SideloadIteration.DocumentsIterator.HasNext | code/processes/converting-process/src/main/java/nu/marginalia/converting/processor/DomainProcessor.java:126-155 | the pending documents are unchanged, and the answer is true iff a document is pending, which is then buffered |
| SideloadIteration.DocumentsIterator.Next | code/processes/converting-process/src/main/java/nu/marginalia/converting/processor/DomainProcessor.java:157-166 | returns the first pending document and drops it; with none pending, returns nothing (NoSuchElementException); the buffer is always cleared |
| SideloadIteration.HasNextTwiceDisagrees | code/processes/converting-process/src/main/java/nu/marginalia/converting/processor/DomainProcessor.java:128-147 | on a stream with one document, two hasNext calls as written answer true, then false |
| SideloadIteration.HasNextTwiceAgrees | code/processes/converting-process/src/main/java/nu/marginalia/converting/processor/DomainProcessor.java:126-155 | with the corrected hasNext, both calls answer true |
| SideloadIteration.GetDocumentsStream | code/processes/converting-process/src/main/java/nu/marginalia/converting/processor/DomainProcessor.java:118-121 | a fresh iterator whose pending documents are everything the stream yields after the domain record |
| EdgeIndexLocalService.ResolvedIndices | marginalia_nu/src/main/java/nu/marginalia/wmsa/edge/index/client/EdgeIndexLocalService.java:69-77 | the positions of exactly the words the lexicon resolves, strictly increasing |
| EdgeIndexLocalService.PackedLayout | marginalia_nu/src/main/java/nu/marginalia/wmsa/edge/index/client/EdgeIndexLocalService.java:65-83 | the array is twice as long as the resolved words; position 2k holds the k-th resolved word's id, never NO_VALUE, and 2k+1 holds that word's metadata |
| EdgeIndexLocalService.AllResolvedFillTheArray | marginalia_nu/src/main/java/nu/marginalia/wmsa/edge/index/client/EdgeIndexLocalService.java:79-81 | when every word resolves, the packed ids fill all 2n slots, so no copy is made |
| EdgeIndexLocalService.PackedSplit | marginalia_nu/src/main/java/nu/marginalia/wmsa/edge/index/client/EdgeIndexLocalService.java:55-61 | packing a split word list gives the packing of each part, concatenated |
| EdgeIndexLocalService.GetOrInsertWordIds | marginalia_nu/src/main/java/nu/marginalia/wmsa/edge/index/client/EdgeIndexLocalService.java:65-83 | the returned array holds exactly `PackedIds` of the words and metadata, and has at most 2n slots |
| EdgeIndexLocalService.PutWords | marginalia_nu/src/main/java/nu/marginalia/wmsa/edge/index/client/EdgeIndexLocalService.java:45-63 | nothing is written for no keywords or a non-positive domain or URL id; otherwise there are exactly ceil(n / MAX_LENGTH) entries, each with header (domain, url, block), entry k holding the packed ids of chunk k, and together the packed ids of all keywords |

## Left out

- Lower-casing is ASCII only; Java's `toLowerCase` is locale- and Unicode-aware.
- `LshDocumentDeduplicator.markIfDuplicate` is not modelled. It only marks documents and never removes one.
- The common-keyword extractor is an input, and so are the following. Their code is not part of this model:
  - the link graph and its inversion;
  - `TopKeywords`;
  - `SiteWords`;
  - `DocumentProcessor`;
  - the geo-IP dictionary;
  - the anchor-tag source;
  - `EdgeDomain`'s top-domain computation.
- `WordMetadata.encode` is an input; its bit layout is not modelled.
- `DocumentDisqualifier.isQualified` always returns true in the source, so the short-circuit branch is dead. It is modelled but cannot be reached.
- The legacy link graph is a function of the kept documents. The incremental `accept` calls are not modelled.
- Document objects are values. The source mutates shared `ProcessedDocument` objects in place; aliasing between the domain's list and other holders is not modelled.
- Integer arithmetic is unbounded. `int` overflow of the disqualifier counters and of the topology sum is not modelled. The same goes for `long` wrap-around of ids, and for `words.length*2` overflowing.
- Quality values are reals. NaN and the double rounding of `-100` are not modelled.
- The `CrawlerDomainStatus` constants are taken to be OK, ERROR, BLOCKED and REDIRECT; the enum's source is not part of this model.
- LegacyDomainProcessor.DomainDocumentsFlags: if `EdgePageWordSet.get` returns null for a PAGE_DATA block, the source throws; the model leaves missing blocks alone.
- SideloadIteration.Sideloaded: a fully processed document whose details or metadata are null throws NullPointerException in the source. The model leaves it unchanged.
- An `IOException` from the stream inside `hasNext` is not modelled; the model's stream is a sequence that is always readable.
- An exception thrown by `DocumentProcessor.process` inside the sideload iterator is not modelled: the processor there always returns a document.
- In fullProcessing, such an exception is caught and only drops the document; the model's processor returns None for it.
- `processedUrls` is shared by every iterator of one `SideloadProcessing`. The model gives `GetDocumentsStream` a fresh set, which describes the first iterator only.
- The sideload constructor reads anchor tags for a domain that is still null at that point. The model takes the external link counts as given.
- `@SneakyThrows` in fullProcessing is modelled as the outcome `Failed`. This covers getState throwing, and calculateStatistics dereferencing null documents or null external links.
- Domains are kept as strings; `EdgeDomain` parsing is not modelled.
- The legacy `CrawledDomain.doc` list is passed as a separate, possibly null, array.
- `DocumentMetadata.withSizeAndTopology` is taken to store its two arguments as given. Any clamping in the record is not modelled.
- `KeywordLexicon.getOrInsert` is a fixed function from words to ids. The lexicon's insertions, its journal and the index writer are I/O and are not modelled; `putWords` returns the entries it would write.
- `ListChunker.chopList` is taken to cut the keyword list into consecutive slices of at most `MAX_LENGTH`. Its code and the value of `MAX_LENGTH` are not part of this model.
- `DictionaryHashMap.NO_VALUE` is a parameter.
- EdgeIndexLocalService.GetOrInsertWordIds: the metadata array is required to be at least as long as the word array. The source's `DocumentKeywords` keeps the two the same length.

## Findings

| source | as written | input that shows it | evidently intended | confidence | as-written member | corrected member |
|---|---|---|---|---|---|---|
| code/processes/converting-process/src/main/java/nu/marginalia/converting/processor/DomainProcessor.java:126-155 | `hasNext` loops only while `next == null` and then returns false, so it answers false whenever a document is already buffered | a stream holding one document record: `hasNext()` returns true and buffers it, and a second `hasNext()` returns false although `next()` would still return the document | `hasNext` answers true whenever a document is buffered or still to come (the `Iterator` contract) | not executed | SideloadIteration.HasNextTwiceDisagrees | SideloadIteration.HasNextTwiceAgrees |
