/**
  The migration ledger repository: the requests it sends to the store, how it
  reads the responses back, and the ledger object whose state those requests
  read and change.
 */
module Repositories {
  import opened Common
  import opened ElasticStore
  import opened StoreRequests
  import LedgerProperties

  // Response decoding

  /** Whether an index response reports a newly created document. */
  function IsCreated(response: IndexResponse): (created: bool)
    ensures created <==> response.result == Some("created")
  {
    response.result == Some("created")
  }

  /** Whether a count read from a response is positive, a missing count reading as 0. */
  function IsPositive(n: Option<int>): (positive: bool)
    ensures n.None? ==> !positive
    ensures n.Some? ==> (positive <==> n.value > 0)
  {
    n.GetOr(0) > 0
  }

  /** The batch of the first hit, or `None` when there is no hit list or it is empty. */
  function FirstHitBatch(hits: Option<seq<Hit>>): (batch: Option<int>)
    ensures batch.Some? <==> hits.Some? && hits.value != []
    ensures batch.Some? ==> batch.value == hits.value[0].source.batch
  {
    if hits.None? || hits.value == [] then None else Some(hits.value[0].source.batch)
  }

  /** The hit list of the first bucket of `group_by_max_batch`, if the response has one. */
  function FirstBucketHits(response: SearchResponse): (hits: Option<seq<Hit>>)
    ensures hits.Some? ==> response.buckets.Some? && response.buckets.value != [] && hits == response.buckets.value[0].topHits
    ensures response.buckets.Some? && response.buckets.value != [] ==> hits == response.buckets.value[0].topHits
  {
    if response.buckets.None? || response.buckets.value == [] then None
    else response.buckets.value[0].topHits
  }

  /** The `_source` of each hit, in hit order. */
  function SourcesOf(hits: seq<Hit>): (records: seq<MigrationRecord>)
    ensures |records| == |hits|
    ensures forall i :: 0 <= i < |hits| ==> records[i] == hits[i].source
  {
    if hits == [] then [] else [hits[0].source] + SourcesOf(hits[1..])
  }

  /** A hit list as a collection of sources; a missing hit list is an empty collection. */
  function Sources(hits: Option<seq<Hit>>): (records: seq<MigrationRecord>)
    ensures hits.None? ==> records == []
    ensures hits.Some? ==> |records| == |hits.value| && forall i :: 0 <= i < |hits.value| ==> records[i] == hits.value[i].source
  {
    if hits.None? then [] else SourcesOf(hits.value)
  }

  /** Reading the sources back from hits built over `records` gives `records` again. */
  lemma SourcesOfHitsOf(records: seq<MigrationRecord>)
    ensures SourcesOf(HitsOf(records)) == records
  {
  }

  /** The mapping the ledger index is created with: `migration` as text, `batch` as integer. */
  function LedgerMapping(): (m: Mapping)
    ensures |m| == 2
    ensures forall f :: f in m <==> f == Field("migration", Text) || f == Field("batch", Integer)
  {
    [Field("migration", Text), Field("batch", Integer)]
  }

  /**
    The repository over the ledger index. `present` says whether the index
    exists, `mapping` is the mapping it was created with, and `docs` are its
    documents in store order.
   */
  class ElasticMigrationRepository {
    const index: string
    var present: bool
    var mapping: Mapping
    var docs: seq<MigrationRecord>

    /** An absent index holds no documents; a present one carries the ledger mapping. */
    ghost predicate Valid()
      reads this
    {
      if present then mapping == LedgerMapping() else docs == [] && mapping == []
    }

    /** A repository over the index named `index`, in the state the store holds it. */
    constructor (index: string, present: bool, docs: seq<MigrationRecord>)
      requires present || docs == []
      ensures Valid()
      ensures this.index == index && this.present == present && this.docs == docs
    {
      this.index := index;
      this.present := present;
      this.docs := docs;
      this.mapping := if present then LedgerMapping() else [];
    }

    /**
      Records `fileName` as applied in `batch`: the index gains exactly that
      document, at the end, and reports it created.
     */
    method Insert(fileName: string, batch: int) returns (r: Result<bool>)
      requires Valid()
      modifies this
      ensures Valid() && present == old(present) && mapping == old(mapping)
      ensures old(present) ==> r == Ok(true) && docs == old(docs) + [MigrationRecord(fileName, batch)]
      ensures !old(present) ==> r == Err(IndexNotFound) && docs == old(docs)
      ensures old(present) ==> Exists(fileName) == Ok(true)
    {
      if !present {
        return Err(IndexNotFound);
      }
      var (stored, response) := IndexDocument(docs, MigrationRecord(fileName, batch));
      docs := stored;
      r := Ok(IsCreated(response));
      LedgerProperties.InsertAddsOneMatch(old(docs), MigrationRecord(fileName, batch));
    }

    /** Whether some document of the ledger is named `fileName`. */
    function Exists(fileName: string): (r: Result<bool>)
      reads this
      ensures !present ==> r == Err(IndexNotFound)
      ensures present ==> r.Ok? && (r.value <==> exists i :: 0 <= i < |docs| && docs[i].migration == fileName)
    {
      if !present then Err(IndexNotFound)
      else Ok(IsPositive(Count(docs, fileName).count))
    }

    /**
      Removes every document named `fileName`, visibly at once, and reports
      whether it removed any; documents with other names stay, in order.
     */
    method Delete(fileName: string) returns (r: Result<bool>)
      requires Valid()
      modifies this
      ensures Valid() && present == old(present) && mapping == old(mapping)
      ensures !old(present) ==> r == Err(IndexNotFound) && docs == old(docs)
      ensures old(present) ==> docs == NotMatching(old(docs), fileName)
      ensures old(present) ==> r == Ok(Matching(old(docs), fileName) != [])
      ensures old(present) ==> Exists(fileName) == Ok(false)
      ensures old(present) ==> (r == Ok(false) <==> docs == old(docs))
      ensures old(present) ==> |docs| + |Matching(old(docs), fileName)| == |old(docs)|
      ensures forall name :: name != fileName ==> Matching(docs, name) == Matching(old(docs), name)
    {
      if !present {
        return Err(IndexNotFound);
      }
      var (remaining, response) := DeleteByQuery(docs, fileName);
      LedgerProperties.DeletePartitions(docs, fileName);
      LedgerProperties.DeleteUnchangedIffNoMatch(docs, fileName);
      forall name | name != fileName
        ensures Matching(remaining, name) == Matching(docs, name)
      {
        LedgerProperties.DeleteKeepsOtherNames(docs, fileName, name);
      }
      docs := remaining;
      r := Ok(IsPositive(response.deleted));
    }

    /** The greatest batch in the ledger, or `None` when the ledger is empty. */
    function GetLastBatchNumber(): (r: Result<Option<int>>)
      reads this
      ensures !present ==> r == Err(IndexNotFound)
      ensures present ==> r.Ok? && (r.value.None? <==> docs == [])
      ensures present && docs != [] ==> r == Ok(Some(MaxBatch(docs)))
      ensures r.Ok? && r.value.Some? ==>
        (exists i :: 0 <= i < |docs| && docs[i].batch == r.value.value) &&
        (forall i :: 0 <= i < |docs| ==> docs[i].batch <= r.value.value)
    {
      if !present then Err(IndexNotFound)
      else Ok(FirstHitBatch(SearchTopByBatch(docs).hits))
    }

    /**
      Documents of the greatest batch: the first `DefaultTopHitsSize` of them in
      store order, and none of any other batch; empty on an empty ledger.
     */
    function GetLastBatch(): (r: Result<seq<MigrationRecord>>)
      reads this
      ensures !present ==> r == Err(IndexNotFound)
      ensures present ==> r.Ok? && (r.value == [] <==> docs == [])
      ensures present && docs != [] ==>
        var members := InBatch(docs, MaxBatch(docs));
        r.value == members[..Min(DefaultTopHitsSize, |members|)]
      ensures r.Ok? ==> forall i :: 0 <= i < |r.value| ==>
        r.value[i] in docs && forall j :: 0 <= j < |docs| ==> docs[j].batch <= r.value[i].batch
    {
      if !present then Err(IndexNotFound)
      else
        var response := SearchLastBatchBucket(docs);
        if docs == [] then Ok(Sources(FirstBucketHits(response)))
        else
          var members := InBatch(docs, MaxBatch(docs));
          SourcesOfHitsOf(members[..Min(DefaultTopHitsSize, |members|)]);
          Ok(Sources(FirstBucketHits(response)))
    }

    /** The ledger's documents in store order, up to the default search window. */
    function GetAll(): (r: Result<seq<MigrationRecord>>)
      reads this
      ensures !present ==> r == Err(IndexNotFound)
      ensures present ==> r == Ok(docs[..Min(DefaultSearchSize, |docs|)])
      ensures present && |docs| <= DefaultSearchSize ==> r == Ok(docs)
    {
      if !present then Err(IndexNotFound)
      else
        SourcesOfHitsOf(docs[..Min(DefaultSearchSize, |docs|)]);
        assert docs[..|docs|] == docs;
        Ok(Sources(SearchAll(docs).hits))
    }

    /** Creates the ledger index, empty, with the ledger mapping. */
    method Up() returns (r: Result<()>)
      requires Valid()
      modifies this
      ensures Valid() && IsReady()
      ensures old(present) ==> r == Err(IndexAlreadyExists) && docs == old(docs)
      ensures !old(present) ==> r == Ok(()) && docs == [] && mapping == LedgerMapping()
    {
      if present {
        return Err(IndexAlreadyExists);
      }
      present, mapping, docs := true, LedgerMapping(), [];
      r := Ok(());
    }

    /** Drops the ledger index and every document in it. */
    method Down() returns (r: Result<()>)
      requires Valid()
      modifies this
      ensures Valid() && !IsReady() && docs == [] && mapping == []
      ensures r == if old(present) then Ok(()) else Err(IndexNotFound)
    {
      if !present {
        return Err(IndexNotFound);
      }
      present, mapping, docs := false, [], [];
      r := Ok(());
    }

    /** Whether the ledger index exists. */
    function IsReady(): (ready: bool)
      reads this
      ensures ready <==> present
    {
      present
    }
  }

  /** On a non-empty ledger every document of the last batch carries the last batch number. */
  lemma LastBatchHasLastBatchNumber(repo: ElasticMigrationRepository)
    requires repo.present && repo.docs != []
    ensures repo.GetLastBatch().Ok? && repo.GetLastBatch().value != []
    ensures forall i :: 0 <= i < |repo.GetLastBatch().value| ==>
      repo.GetLastBatchNumber() == Ok(Some(repo.GetLastBatch().value[i].batch))
  {
  }

  /** The greatest batch over the ledger states of the rollback round below. */
  lemma RollbackScenarioBatches(users: MigrationRecord, email: MigrationRecord, idx: MigrationRecord)
    requires users.batch == 1 && email.batch == 1 && idx.batch == 2
    ensures MaxBatch([users, email]) == 1 && MaxBatch([users, email, idx]) == 2
  {
    LedgerProperties.MaxBatchAfterInsert([users], email);
    assert [users] + [email] == [users, email];
    LedgerProperties.MaxBatchAfterInsert([users, email], idx);
    assert [users, email] + [idx] == [users, email, idx];
  }

  /** The last-batch bucket of the rollback round below, before the rollback. */
  lemma RollbackScenarioBucket(users: MigrationRecord, email: MigrationRecord, idx: MigrationRecord)
    requires users.batch == 1 && email.batch == 1 && idx.batch == 2
    ensures InBatch([users, email, idx], 2) == [idx]
  {
    assert [users, email, idx][1..] == [email, idx] && [email, idx][1..] == [idx] && [idx][1..] == [];
  }

  /** What deleting the batch-2 migration keeps in the rollback round below. */
  lemma RollbackScenarioDelete(users: MigrationRecord, email: MigrationRecord, idx: MigrationRecord)
    requires idx.migration != users.migration && idx.migration != email.migration
    ensures NotMatching([users, email, idx], idx.migration) == [users, email]
  {
    assert [users, email, idx][1..] == [email, idx] && [email, idx][1..] == [idx] && [idx][1..] == [];
    assert NotMatching([idx], idx.migration) == [];
    assert NotMatching([email, idx], idx.migration) == [email];
    assert [users] + [email] == [users, email];
  }

  /** The rollback round's first run: provision the ledger, then two migrations in batch 1. */
  method ApplyFirstBatch(users: MigrationRecord, email: MigrationRecord) returns (repo: ElasticMigrationRepository)
    ensures fresh(repo) && repo.Valid() && repo.present && repo.docs == [users, email]
  {
    repo := new ElasticMigrationRepository("elastic_migrations", false, []);
    var up := repo.Up();
    var a := repo.Insert(users.migration, users.batch);
    var b := repo.Insert(email.migration, email.batch);
    assert repo.docs == [users, email];
  }

  /** The rollback round's second run: batch 1 is the last batch, then one migration in batch 2. */
  method ApplySecondBatch(repo: ElasticMigrationRepository, users: MigrationRecord, email: MigrationRecord, idx: MigrationRecord)
    requires users.batch == 1 && email.batch == 1 && idx.batch == 2
    requires repo.Valid() && repo.present && repo.docs == [users, email]
    modifies repo
    ensures repo.Valid() && repo.present && repo.docs == [users, email, idx]
  {
    assert MaxBatch(repo.docs) == 1 by { RollbackScenarioBatches(users, email, idx); }
    assert repo.GetLastBatchNumber() == Ok(Some(1));
    var c := repo.Insert(idx.migration, idx.batch);
    assert repo.docs == [users, email, idx];
  }

  /** The rollback: batch 2 is the last batch, holding the one migration; rolling it back leaves batch 1. */
  method RollBackSecondBatch(repo: ElasticMigrationRepository, users: MigrationRecord, email: MigrationRecord, idx: MigrationRecord)
    requires users.batch == 1 && email.batch == 1 && idx.batch == 2
    requires idx.migration != users.migration && idx.migration != email.migration
    requires repo.Valid() && repo.present && repo.docs == [users, email, idx]
    modifies repo
  {
    assert MaxBatch(repo.docs) == 2 && InBatch(repo.docs, 2) == [idx] by {
      RollbackScenarioBatches(users, email, idx);
      RollbackScenarioBucket(users, email, idx);
    }
    assert repo.GetLastBatchNumber() == Ok(Some(2));
    assert [idx][..Min(DefaultTopHitsSize, 1)] == [idx];
    assert repo.GetLastBatch() == Ok([idx]);
    var d := repo.Delete(idx.migration);
    assert repo.docs == [users, email] by { RollbackScenarioDelete(users, email, idx); }
    assert d == Ok(true);
    assert MaxBatch(repo.docs) == 1 by { RollbackScenarioBatches(users, email, idx); }
    assert repo.GetLastBatchNumber() == Ok(Some(1));
    assert |repo.GetAll().value| == 2;
  }

  /**
    A rollback round: two migrations in batch 1, one in batch 2, then the
    batch-2 migration rolled back.
   */
  method RollbackScenario(users: MigrationRecord, email: MigrationRecord, idx: MigrationRecord)
    requires users.batch == 1 && email.batch == 1 && idx.batch == 2
    requires idx.migration != users.migration && idx.migration != email.migration
  {
    var repo := ApplyFirstBatch(users, email);
    ApplySecondBatch(repo, users, email, idx);
    RollBackSecondBatch(repo, users, email, idx);
  }
}
