/**
  An in-memory stand-in for the one Elasticsearch index that holds the
  migration ledger. The index is the sequence of its documents in store
  order (the order in which they were indexed). This module holds the
  documents, the responses the store sends back, and the selections its
  queries make; module StoreRequests evaluates whole requests.
 */
module ElasticStore {
  import opened Common

  /** One ledger document: `{migration: <file name>, batch: <batch number>}`. */
  datatype MigrationRecord = MigrationRecord(migration: string, batch: int)

  /** A search hit; the repository reads nothing of it but its `_source`. */
  datatype Hit = Hit(source: MigrationRecord)

  /** A bucket of a `terms` aggregation on `batch`, with its nested `top_hits`. */
  datatype Bucket = Bucket(key: int, topHits: Option<seq<Hit>>)

  // Responses: each holds the keys the repository looks up, `None` where the
  // response carries no such key.
  datatype IndexResponse = IndexResponse(result: Option<string>)
  datatype CountResponse = CountResponse(count: Option<int>)
  datatype DeleteByQueryResponse = DeleteByQueryResponse(deleted: Option<int>)
  /** `hits.hits`, and `aggregations.group_by_max_batch.buckets` when the request aggregates. */
  datatype SearchResponse = SearchResponse(hits: Option<seq<Hit>>, buckets: Option<seq<Bucket>>)

  /** Field types of an index mapping, as far as the ledger uses them. */
  datatype FieldType = Text | Integer
  datatype Field = Field(name: string, fieldType: FieldType)
  type Mapping = seq<Field>

  /** Number of hits a search returns when the request sends no `size`. */
  const DefaultSearchSize: nat := 10

  /** Number of hits a `top_hits` aggregation returns when it sends no `size`. */
  const DefaultTopHitsSize: nat := 3

  /** The documents a `match` query on `migration` selects, in store order. */
  function Matching(docs: seq<MigrationRecord>, name: string): (m: seq<MigrationRecord>)
    ensures |m| <= |docs|
    ensures forall r :: r in m ==> r.migration == name && r in docs
    ensures forall r :: r in docs && r.migration == name ==> r in m
  {
    if docs == [] then []
    else
      var rest := Matching(docs[1..], name);
      assert forall i :: 1 <= i < |docs| ==> docs[i] == docs[1..][i - 1];
      if docs[0].migration == name then [docs[0]] + rest else rest
  }

  /** The documents a `match` query on `migration` leaves alone, in store order. */
  function NotMatching(docs: seq<MigrationRecord>, name: string): (m: seq<MigrationRecord>)
    ensures |m| <= |docs|
    ensures forall r :: r in m ==> r.migration != name && r in docs
    ensures forall r :: r in docs && r.migration != name ==> r in m
  {
    if docs == [] then []
    else
      var rest := NotMatching(docs[1..], name);
      assert forall i :: 1 <= i < |docs| ==> docs[i] == docs[1..][i - 1];
      if docs[0].migration != name then [docs[0]] + rest else rest
  }

  /** The documents whose `batch` is `batch`, in store order: one bucket of a `terms` aggregation. */
  function InBatch(docs: seq<MigrationRecord>, batch: int): (m: seq<MigrationRecord>)
    ensures |m| <= |docs|
    ensures forall r :: r in m ==> r.batch == batch && r in docs
    ensures forall r :: r in docs && r.batch == batch ==> r in m
    ensures multiset(m) <= multiset(docs)
  {
    if docs == [] then []
    else
      var rest := InBatch(docs[1..], batch);
      assert forall i :: 1 <= i < |docs| ==> docs[i] == docs[1..][i - 1];
      assert docs == [docs[0]] + docs[1..];
      if docs[0].batch == batch then [docs[0]] + rest else rest
  }

  /** The greatest `batch` of a non-empty index. */
  function MaxBatch(docs: seq<MigrationRecord>): (m: int)
    requires docs != []
    ensures exists i :: 0 <= i < |docs| && docs[i].batch == m
    ensures forall i :: 0 <= i < |docs| ==> docs[i].batch <= m
  {
    if |docs| == 1 then docs[0].batch
    else
      var rest := MaxBatch(docs[1..]);
      assert forall i :: 1 <= i < |docs| ==> docs[i] == docs[1..][i - 1];
      if docs[0].batch >= rest then docs[0].batch else rest
  }

  /** The hits that carry `records` as their `_source`, in the same order. */
  function HitsOf(records: seq<MigrationRecord>): (hits: seq<Hit>)
    ensures |hits| == |records|
    ensures forall i :: 0 <= i < |hits| ==> hits[i].source == records[i]
  {
    seq(|records|, i requires 0 <= i < |records| => Hit(records[i]))
  }
}
