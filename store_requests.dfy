/**
  The requests the ledger repository sends to its Elasticsearch index, each
  evaluated over the index's documents in store order, giving the new
  documents where the request writes and the response it sends back.
 */
module StoreRequests {
  import opened Common
  import opened ElasticStore
  import LedgerProperties

  /** Indexing a document without an id: the store adds it as a new document and reports it created. */
  function IndexDocument(docs: seq<MigrationRecord>, doc: MigrationRecord): (r: (seq<MigrationRecord>, IndexResponse))
    ensures |r.0| == |docs| + 1 && r.0[..|docs|] == docs && r.0[|docs|] == doc
    ensures r.1.result == Some("created")
    ensures |Matching(r.0, doc.migration)| == |Matching(docs, doc.migration)| + 1
    ensures forall name :: name != doc.migration ==> Matching(r.0, name) == Matching(docs, name)
  {
    LedgerProperties.InsertAddsOneMatch(docs, doc);
    (docs + [doc], IndexResponse(Some("created")))
  }

  /** `count` with a `match` query on `migration`: how many documents carry the name. */
  function Count(docs: seq<MigrationRecord>, name: string): (response: CountResponse)
    ensures response.count.Some? && 0 <= response.count.value <= |docs|
    ensures response.count.value > 0 <==> exists i :: 0 <= i < |docs| && docs[i].migration == name
  {
    LedgerProperties.MatchingNonEmpty(docs, name);
    CountResponse(Some(|Matching(docs, name)|))
  }

  /**
    `delete_by_query` with a `match` query on `migration`: the documents that
    carry the name go, every other document stays, and the response counts
    what went. `refresh` makes the result visible at once.
   */
  function DeleteByQuery(docs: seq<MigrationRecord>, name: string): (r: (seq<MigrationRecord>, DeleteByQueryResponse))
    ensures forall d :: d in r.0 <==> d in docs && d.migration != name
    ensures multiset(r.0) <= multiset(docs)
    ensures r.1.deleted == Some(|docs| - |r.0|)
    ensures forall other :: other != name ==> Matching(r.0, other) == Matching(docs, other)
  {
    LedgerProperties.DeletePartitions(docs, name);
    forall other | other != name
      ensures Matching(NotMatching(docs, name), other) == Matching(docs, other)
    {
      LedgerProperties.DeleteKeepsOtherNames(docs, name, other);
    }
    (NotMatching(docs, name), DeleteByQueryResponse(Some(|Matching(docs, name)|)))
  }

  /**
    A search sorted by `batch` descending with `size` 1: one document of the
    greatest batch, none on an empty index (ties are broken by the store;
    this model takes the first in store order).
   */
  function SearchTopByBatch(docs: seq<MigrationRecord>): (response: SearchResponse)
    ensures response.buckets.None? && response.hits.Some?
    ensures docs == [] ==> response.hits.value == []
    ensures docs != [] ==> |response.hits.value| == 1 && response.hits.value[0].source in docs
    ensures docs != [] ==> forall d :: d in docs ==> d.batch <= response.hits.value[0].source.batch
  {
    if docs == [] then SearchResponse(Some([]), None)
    else
      var top := InBatch(docs, MaxBatch(docs));
      SearchResponse(Some([Hit(top[0])]), None)
  }

  /**
    A search with `size` 0 and a `terms` aggregation on `batch` ordered by key
    descending with `size` 1, nesting a `top_hits` without a `size`: no hits,
    and at most one bucket, the greatest batch, holding its first documents.
   */
  function SearchLastBatchBucket(docs: seq<MigrationRecord>): (response: SearchResponse)
    ensures response.hits == Some([]) && response.buckets.Some?
    ensures response.buckets.value == [] <==> docs == []
    ensures docs != [] ==>
      var buckets := response.buckets.value;
      |buckets| == 1 && buckets[0].key == MaxBatch(docs) && buckets[0].topHits.Some? &&
      1 <= |buckets[0].topHits.value| <= DefaultTopHitsSize &&
      forall h :: h in buckets[0].topHits.value ==> h.source in docs && h.source.batch == buckets[0].key
  {
    if docs == [] then SearchResponse(Some([]), Some([]))
    else
      var key := MaxBatch(docs);
      var members := InBatch(docs, key);
      var top := members[..Min(DefaultTopHitsSize, |members|)];
      assert forall h :: h in HitsOf(top) ==> h.source in top;
      SearchResponse(Some([]), Some([Bucket(key, Some(HitsOf(top)))]))
  }

  /** A search with no body: the first documents in store order, up to the default window. */
  function SearchAll(docs: seq<MigrationRecord>): (response: SearchResponse)
    ensures response.buckets.None? && response.hits.Some?
    ensures |response.hits.value| == Min(DefaultSearchSize, |docs|)
    ensures forall i :: 0 <= i < |response.hits.value| ==> response.hits.value[i].source == docs[i]
  {
    SearchResponse(Some(HitsOf(docs[..Min(DefaultSearchSize, |docs|)])), None)
  }
}
