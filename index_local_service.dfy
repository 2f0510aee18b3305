/** EdgeIndexLocalService: a document's keywords go to the index journal as
    (word id, metadata) pairs, one journal entry per chunk of keywords. Word
    ids come from the keyword lexicon; words it has no id for are dropped. */
module EdgeIndexLocalService {
  import LegacySiteWords

  /** The journal entry header: whose words these are and which block they belong to. */
  datatype JournalHeader = JournalHeader(domainId: int, urlId: int, block: LegacySiteWords.IndexBlock)

  /** One indexWriter.put: a header and its interleaved ids. */
  datatype JournalEntry = JournalEntry(header: JournalHeader, ids: seq<int>)

  /** The interleaved ids of the words the lexicon resolves: the word's id,
      then its metadata, in word order. */
  function PackedIds(words: seq<string>, meta: seq<int>, lexicon: string -> int, noValue: int): seq<int>
    requires |words| <= |meta|
  {
    if words == [] then []
    else
      var n := |words| - 1;
      PackedIds(words[..n], meta, lexicon, noValue)
      + (if lexicon(words[n]) != noValue then [lexicon(words[n]), meta[n]] else [])
  }

  /** The positions of the words the lexicon resolves, in increasing order. */
  function ResolvedIndices(words: seq<string>, lexicon: string -> int, noValue: int): (r: seq<int>)
    ensures forall k :: 0 <= k < |r| ==> 0 <= r[k] < |words| && lexicon(words[r[k]]) != noValue
    ensures forall k, l :: 0 <= k < l < |r| ==> r[k] < r[l]
    ensures forall i :: 0 <= i < |words| && lexicon(words[i]) != noValue ==> i in r
  {
    if words == [] then []
    else
      var n := |words| - 1;
      var before := ResolvedIndices(words[..n], lexicon, noValue);
      assert forall k :: 0 <= k < |before| ==> words[..n][before[k]] == words[before[k]];
      before + (if lexicon(words[n]) != noValue then [n] else [])
  }

  /** Even positions hold the ids of the resolved words, in order, each
      followed by that word's metadata; the length is twice the number of
      resolved words, and no position holding an id holds the missing-id value. */
  lemma {:induction false} PackedLayout(words: seq<string>, meta: seq<int>, lexicon: string -> int, noValue: int)
    requires |words| <= |meta|
    ensures var ids := PackedIds(words, meta, lexicon, noValue);
            var resolved := ResolvedIndices(words, lexicon, noValue);
            |ids| == 2 * |resolved|
            && forall k :: 0 <= k < |resolved| ==>
                 ids[2 * k] == lexicon(words[resolved[k]]) && ids[2 * k] != noValue
                 && ids[2 * k + 1] == meta[resolved[k]]
  {
    if words != [] {
      var n := |words| - 1;
      PackedLayout(words[..n], meta, lexicon, noValue);
      var before := ResolvedIndices(words[..n], lexicon, noValue);
      assert forall k :: 0 <= k < |before| ==> words[..n][before[k]] == words[before[k]];
    }
  }

  /** When every word resolves, the ids are exactly twice as many as the
      words, and getOrInsertWordIds returns its array uncut. */
  lemma {:induction false} AllResolvedFillTheArray(words: seq<string>, meta: seq<int>, lexicon: string -> int, noValue: int)
    requires |words| <= |meta|
    requires forall i :: 0 <= i < |words| ==> lexicon(words[i]) != noValue
    ensures |PackedIds(words, meta, lexicon, noValue)| == 2 * |words|
  {
    if words != [] {
      AllResolvedFillTheArray(words[..|words| - 1], meta, lexicon, noValue);
    }
  }

  /** Packing a list in two parts packs each part; this is what lets
      putWords pack one chunk at a time. */
  lemma {:induction false} PackedSplit(words: seq<string>, meta: seq<int>, lexicon: string -> int, noValue: int, m: int)
    requires |words| <= |meta| && 0 <= m <= |words|
    ensures PackedIds(words, meta, lexicon, noValue)
            == PackedIds(words[..m], meta[..m], lexicon, noValue) + PackedIds(words[m..], meta[m..], lexicon, noValue)
    decreases |words|
  {
    if m == |words| {
      assert words[..m] == words;
      PackedIgnoresExtraMeta(words, meta, m, lexicon, noValue);
    } else {
      var n := |words| - 1;
      PackedSplit(words[..n], meta, lexicon, noValue, m);
      assert words[..n][..m] == words[..m];
      assert words[m..][..|words[m..]| - 1] == words[..n][m..];
      assert words[m..][|words[m..]| - 1] == words[n] && meta[m..][|words[m..]| - 1] == meta[n];
      PackedIgnoresExtraMeta(words[..m], meta, m, lexicon, noValue);
      PackedShiftedMeta(words[..n][m..], meta, m, lexicon, noValue);
    }
  }

  /** Only the first |words| metadata values are read. */
  lemma {:induction false} PackedIgnoresExtraMeta(words: seq<string>, meta: seq<int>, m: int, lexicon: string -> int, noValue: int)
    requires |words| <= m <= |meta|
    ensures PackedIds(words, meta, lexicon, noValue) == PackedIds(words, meta[..m], lexicon, noValue)
  {
    if words != [] {
      PackedIgnoresExtraMeta(words[..|words| - 1], meta, m, lexicon, noValue);
    }
  }

  /** Packing words that sit at offset m against the metadata from offset m. */
  lemma {:induction false} PackedShiftedMeta(words: seq<string>, meta: seq<int>, m: int, lexicon: string -> int, noValue: int)
    requires 0 <= m && m + |words| <= |meta|
    ensures PackedIds(words, meta[m..], lexicon, noValue) == PackedIds(words, meta[m..m + |words|], lexicon, noValue)
  {
    PackedIgnoresExtraMeta(words, meta[m..], |words|, lexicon, noValue);
    assert meta[m..][..|words|] == meta[m..m + |words|];
  }

  /** getOrInsertWordIds: fill an array of twice the word count with (id,
      metadata) pairs of the resolved words, then cut it to the filled part. */
  method GetOrInsertWordIds(words: seq<string>, meta: seq<int>, lexicon: string -> int, noValue: int)
    returns (ids: array<int>)
    requires |words| <= |meta|
    ensures ids[..] == PackedIds(words, meta, lexicon, noValue)
    ensures ids.Length <= 2 * |words|
  {
    ids := new int[|words| * 2];
    var putIdx := 0;
    for i := 0 to |words|
      invariant putIdx <= 2 * i
      invariant ids.Length == 2 * |words|
      invariant putIdx == |PackedIds(words[..i], meta, lexicon, noValue)|
      invariant ids[..putIdx] == PackedIds(words[..i], meta, lexicon, noValue)
    {
      assert words[..i + 1][..i] == words[..i];
      var word := words[i];
      var id := lexicon(word);
      if id != noValue {
        ids[putIdx] := id;
        putIdx := putIdx + 1;
        ids[putIdx] := meta[i];
        putIdx := putIdx + 1;
      }
    }
    assert words[..|words|] == words;

    if putIdx != |words| * 2 {
      var copy := new int[putIdx];
      for j := 0 to putIdx
        invariant copy[..j] == ids[..j]
        invariant ids[..putIdx] == PackedIds(words, meta, lexicon, noValue)
      {
        copy[j] := ids[j];
      }
      assert copy[..] == copy[..putIdx];
      ids := copy;
    } else {
      assert ids[..] == ids[..putIdx];
    }
  }

  function Min(a: int, b: int): int {
    if a <= b then a else b
  }

  /** The k-th chunk of at most m elements of s, as the keyword list is cut. */
  function Chunk<T>(s: seq<T>, k: nat, m: int): (r: seq<T>)
    requires m > 0
    ensures |r| <= m
  {
    assert k * m <= (k + 1) * m;
    s[Min(k * m, |s|)..Min((k + 1) * m, |s|)]
  }

  /** All the ids written, entry after entry. */
  function WrittenIds(entries: seq<JournalEntry>): seq<int> {
    if entries == [] then [] else WrittenIds(entries[..|entries| - 1]) + entries[|entries| - 1].ids
  }

  /** putWords: nothing is written for an empty keyword list or a
      non-positive id; otherwise the keywords are cut into chunks of at most
      maxLength, one entry per chunk, each under the same header, and the
      entries together carry the packed ids of all keywords. */
  method PutWords(domainId: int, urlId: int, block: LegacySiteWords.IndexBlock, keywords: seq<string>, metadata: seq<int>,
                  maxLength: int, lexicon: string -> int, noValue: int)
    returns (written: seq<JournalEntry>)
    requires |keywords| == |metadata| && maxLength > 0
    ensures |keywords| == 0 || domainId <= 0 || urlId <= 0 ==> written == []
    ensures |keywords| > 0 && domainId > 0 && urlId > 0 ==>
              (|written| - 1) * maxLength < |keywords| <= |written| * maxLength
              && WrittenIds(written) == PackedIds(keywords, metadata, lexicon, noValue)
              && forall k :: 0 <= k < |written| ==>
                   written[k].header == JournalHeader(domainId, urlId, block)
                   && written[k].ids
                      == PackedIds(Chunk(keywords, k, maxLength), Chunk(metadata, k, maxLength), lexicon, noValue)
  {
    written := [];
    if |keywords| == 0 {
      return;
    }
    if domainId <= 0 || urlId <= 0 {
      return;
    }
    var n := |keywords|;
    var start := 0;
    while start < n
      invariant 0 <= start <= n
      invariant start < n ==> start == |written| * maxLength
      invariant start == n ==> (|written| - 1) * maxLength < n <= |written| * maxLength
      invariant WrittenIds(written) == PackedIds(keywords[..start], metadata[..start], lexicon, noValue)
      invariant ChunksWritten(written, JournalHeader(domainId, urlId, block), keywords, metadata, maxLength, lexicon, noValue)
      decreases n - start
    {
      var end := Min(start + maxLength, n);
      var ids := GetOrInsertWordIds(keywords[start..end], metadata[start..end], lexicon, noValue);
      var entry := JournalEntry(JournalHeader(domainId, urlId, block), ids[..]);
      ChunkExtends(keywords, metadata, start, end, lexicon, noValue);
      ChunkStep(|written|, maxLength, n, start);
      ChunkAt(keywords, |written|, maxLength, start);
      ChunkAt(metadata, |written|, maxLength, start);
      AppendChunk(written, entry, keywords, metadata, maxLength, lexicon, noValue);
      written := written + [entry];
      start := end;
    }
    assert keywords[..n] == keywords && metadata[..n] == metadata;
  }

  /** Entry k carries the header and the packed ids of the k-th chunk. */
  predicate ChunksWritten(written: seq<JournalEntry>, header: JournalHeader, keywords: seq<string>, metadata: seq<int>,
                          maxLength: int, lexicon: string -> int, noValue: int)
    requires |keywords| == |metadata| && maxLength > 0
  {
    forall k :: 0 <= k < |written| ==>
      written[k].header == header
      && written[k].ids == PackedIds(Chunk(keywords, k, maxLength), Chunk(metadata, k, maxLength), lexicon, noValue)
  }

  /** Writing the next chunk's entry keeps every entry in place. */
  lemma AppendChunk(written: seq<JournalEntry>, entry: JournalEntry, keywords: seq<string>, metadata: seq<int>,
                    maxLength: int, lexicon: string -> int, noValue: int)
    requires |keywords| == |metadata| && maxLength > 0
    requires ChunksWritten(written, entry.header, keywords, metadata, maxLength, lexicon, noValue)
    requires entry.ids
             == PackedIds(Chunk(keywords, |written|, maxLength), Chunk(metadata, |written|, maxLength), lexicon, noValue)
    ensures ChunksWritten(written + [entry], entry.header, keywords, metadata, maxLength, lexicon, noValue)
    ensures WrittenIds(written + [entry]) == WrittenIds(written) + entry.ids
  {
    assert (written + [entry])[..|written|] == written;
  }

  /** One chunk further: the next chunk ends at the next multiple of m, or
      at the end of the list when that comes first. */
  lemma ChunkStep(w: nat, m: int, n: int, start: int)
    requires m > 0 && 0 <= start < n && start == w * m
    ensures Min(start + m, n) < n ==> Min(start + m, n) == (w + 1) * m
    ensures Min(start + m, n) == n ==> (w + 1 - 1) * m < n <= (w + 1) * m
  {
    assert (w + 1) * m == w * m + m;
  }

  /** The chunk starting at a multiple of m is the slice up to the next
      multiple of m or the end of the list. */
  lemma ChunkAt<T>(s: seq<T>, w: nat, m: int, start: int)
    requires m > 0 && 0 <= start < |s| && start == w * m
    ensures Chunk(s, w, m) == s[start..Min(start + m, |s|)]
  {
    assert (w + 1) * m == w * m + m;
  }

  /** The packed ids of a longer prefix: those of the shorter prefix, then
      those of the chunk in between. */
  lemma ChunkExtends(keywords: seq<string>, metadata: seq<int>, start: int, end: int, lexicon: string -> int, noValue: int)
    requires |keywords| == |metadata| && 0 <= start <= end <= |keywords|
    ensures PackedIds(keywords[..end], metadata[..end], lexicon, noValue)
            == PackedIds(keywords[..start], metadata[..start], lexicon, noValue)
               + PackedIds(keywords[start..end], metadata[start..end], lexicon, noValue)
  {
    PackedSplit(keywords[..end], metadata[..end], lexicon, noValue, start);
    assert keywords[..end][..start] == keywords[..start] && metadata[..end][..start] == metadata[..start];
    assert keywords[..end][start..] == keywords[start..end] && metadata[..end][start..] == metadata[start..end];
  }
}
