# Elastic migrations ledger, in Dafny

This project models the migration ledger of the Laravel package
`elastic-migrations`: the `ElasticMigrationRepository` class, which records in
one Elasticsearch index which migration files have been applied and in which
batch, answers the queries a migration runner needs (is this file applied?
what is the last batch? which files are in it? what is applied at all?), and
creates and drops that index.

The Elasticsearch index is modelled as an in-memory ledger: the sequence of
its documents `{migration, batch}` in store order, plus whether the index
exists and the mapping it was created with. The repository is a class over
that state (`Repositories.ElasticMigrationRepository`): the writes (`Insert`,
`Delete`, `Up`, `Down`) are methods that change it, the reads (`Exists`,
`GetLastBatchNumber`, `GetLastBatch`, `GetAll`, `IsReady`) are functions of it.

Each read and write goes through the same two steps as the PHP code:

1. the request is evaluated by the store (modules `ElasticStore` and
   `StoreRequests`): a `match`
   on `migration` selects the documents with that name, a search sorted by
   `batch` descending with `size` 1 returns a document of the greatest batch,
   the `terms` aggregation on `batch` ordered by key descending with `size` 1
   returns one bucket, the greatest batch, whose nested `top_hits` holds that
   batch's first documents, and a search with no body returns the first
   documents;
2. the response is read back by small decoders (module `Repositories`):
   `result === 'created'`, a count or `deleted` that is positive with a
   missing key reading as 0, the batch of the first hit or `null`, and the
   `_source` of each hit, with a missing hit list giving an empty collection.

Module `LedgerProperties` proves what these queries promise across
operations: indexing a document adds exactly one match for its name and none
for any other, deleting by name splits the ledger with nothing lost, changes
it exactly when something matched and leaves every other name's documents as
they were, and indexing moves the greatest batch only upwards.

`RollbackScenario` is a client of the class that runs a whole round
(provision, two migrations in batch 1, one in batch 2, roll back batch 2) and
checks what each query answers along the way.

What the code does that shapes the model:

- `getLastBatch` nests a `top_hits` without a `size`, so the store returns
  at most its default of 3 documents of the last batch
  (`DefaultTopHitsSize`), not the whole batch. `getAll` sends no `size`, so
  it returns at most the default search window of 10 documents
  (`DefaultSearchSize`).
- `up()` maps `migration` as `text` and `batch` as `integer`
  (`LedgerMapping`).
- Creating an index that exists and dropping one that does not are errors of
  the store, which the code lets propagate. The model returns them as
  `Err(IndexAlreadyExists)` and `Err(IndexNotFound)` and leaves the state as
  it was. Counts, searches and deletes on a missing index are store errors
  too, returned as `Err(IndexNotFound)`. An insert on a missing index is
  also returned as `Err(IndexNotFound)`, which is not what the store does
  (see "Left out").

## Model

| member | source | states |
|---|---|---|
| Repositories.ElasticMigrationRepository.constructor | src/Repositories/ElasticMigrationRepository.php:31-36 | the repository is bound to the named index and sees the store's state as it is |
| Repositories.ElasticMigrationRepository.Insert | src/Repositories/ElasticMigrationRepository.php:38-51 | on an existing index the ledger gains exactly `{migration: fileName, batch}` at the end, nothing else changes, the call reports `true` (created) and `Exists(fileName)` is then true; on a missing index it fails and changes nothing |
| Repositories.ElasticMigrationRepository.Exists | src/Repositories/ElasticMigrationRepository.php:53-69 | true exactly when some ledger document is named `fileName`; fails on a missing index |
| Repositories.ElasticMigrationRepository.Delete | src/Repositories/ElasticMigrationRepository.php:71-88 | removes every document named `fileName` and only those, keeping the others in order; reports `true` exactly when it removed something, and `false` exactly when the ledger is unchanged; afterwards `Exists(fileName)` is false and every other name selects what it did before; the ledger shrinks by the number of matches |
| Repositories.ElasticMigrationRepository.GetLastBatchNumber | src/Repositories/ElasticMigrationRepository.php:90-108 | `None` exactly on an empty ledger, otherwise a batch that occurs in the ledger and is at least every batch in it |
| Repositories.ElasticMigrationRepository.GetLastBatch | src/Repositories/ElasticMigrationRepository.php:110-145 | the first `DefaultTopHitsSize` documents of the greatest batch in store order; each returned document is in the ledger and has the greatest batch; empty exactly when the ledger is empty |
| Repositories.ElasticMigrationRepository.GetAll | src/Repositories/ElasticMigrationRepository.php:147-160 | the ledger's documents in store order, cut at `DefaultSearchSize`; the whole ledger when it is no larger than that |
| Repositories.ElasticMigrationRepository.Up | src/Repositories/ElasticMigrationRepository.php:162-171 | on a missing index creates it empty with the ledger mapping; on an existing one fails and changes nothing; either way the index is then ready |
| Repositories.ElasticMigrationRepository.Down | src/Repositories/ElasticMigrationRepository.php:173-176 | the index and all its documents are gone and it is not ready; fails when the index was already missing |
| Repositories.ElasticMigrationRepository.IsReady | src/Repositories/ElasticMigrationRepository.php:178-181 | true exactly when the ledger index exists |
| Repositories.LedgerMapping | src/Repositories/ElasticMigrationRepository.php:164-166 | the mapping has exactly two fields, `migration` as text and `batch` as integer |
| Repositories.IsCreated | src/Repositories/ElasticMigrationRepository.php:50 | true exactly when the response's `result` is present and is `created` |
| Repositories.IsPositive | src/Repositories/ElasticMigrationRepository.php:68 | a missing count reads as 0 and so as false; a present count is true exactly when it is above 0 |
| Repositories.FirstHitBatch | src/Repositories/ElasticMigrationRepository.php:105-107 | a batch exactly when the hit list is present and non-empty, and then the batch of its first hit |
| Repositories.FirstBucketHits | src/Repositories/ElasticMigrationRepository.php:139 | the hits of the first bucket exactly when the bucket list is present and non-empty, and no hits otherwise |
| Repositories.SourcesOf | src/Repositories/ElasticMigrationRepository.php:141-144 | one record per hit, in hit order, each the hit's `_source` |
| Repositories.Sources | src/Repositories/ElasticMigrationRepository.php:156-159 | a missing hit list is an empty collection; otherwise one record per hit, in hit order, each the hit's `_source` |
| Repositories.SourcesOfHitsOf | src/Repositories/ElasticMigrationRepository.php:147-159 | reading `_source` back from hits built over some records gives exactly those records |
| Repositories.LastBatchHasLastBatchNumber | src/Repositories/ElasticMigrationRepository.php:90-145 | on a non-empty ledger the last batch is non-empty and every document in it carries the last batch number |
| ElasticStore.Matching | src/Repositories/ElasticMigrationRepository.php:57-62 | the `match` on `migration` selects documents of the ledger with that name, and all of them |
| ElasticStore.NotMatching | src/Repositories/ElasticMigrationRepository.php:73-85 | what a delete-by-query leaves: documents of the ledger with another name, and all of them |
| ElasticStore.InBatch | src/Repositories/ElasticMigrationRepository.php:115-131 | a `terms` bucket: documents of the ledger with that batch, and all of them, never more often than the ledger holds them |
| ElasticStore.MaxBatch | src/Repositories/ElasticMigrationRepository.php:95-100 | the greatest batch: one that occurs in the ledger and is at least every batch in it |
| ElasticStore.HitsOf | src/Repositories/ElasticMigrationRepository.php:139-159 | one hit per record, in order, each carrying the record as its `_source` |
| StoreRequests.IndexDocument | src/Repositories/ElasticMigrationRepository.php:40-48 | the document is appended after all existing ones, which stay as they were; the response reports `created`; its name gains exactly one match and every other name's matches are unchanged |
| StoreRequests.Count | src/Repositories/ElasticMigrationRepository.php:55-66 | a count is always present, between 0 and the ledger size, and positive exactly when some document carries the name |
| StoreRequests.DeleteByQuery | src/Repositories/ElasticMigrationRepository.php:73-85 | a document is kept exactly when it is in the ledger and carries another name; nothing is duplicated; `deleted` is the number of documents removed; every other name's matches are unchanged |
| StoreRequests.SearchTopByBatch | src/Repositories/ElasticMigrationRepository.php:92-104 | no hits on an empty ledger; otherwise exactly one hit, a ledger document whose batch is at least every batch in the ledger |
| StoreRequests.SearchLastBatchBucket | src/Repositories/ElasticMigrationRepository.php:112-138 | no top-level hits; no bucket exactly when the ledger is empty; otherwise one bucket keyed by the greatest batch, holding between 1 and `DefaultTopHitsSize` hits, each a ledger document of that batch |
| StoreRequests.SearchAll | src/Repositories/ElasticMigrationRepository.php:149-153 | as many hits as the smaller of the ledger size and `DefaultSearchSize`, hit `i` carrying ledger document `i` |
| LedgerProperties.InBatchAppend | src/Repositories/ElasticMigrationRepository.php:115-131 | a batch's bucket over documents indexed one after another is the bucket of each, in store order |
| LedgerProperties.MatchingNonEmpty | src/Repositories/ElasticMigrationRepository.php:53-69 | the count is positive exactly when some document carries the name |
| LedgerProperties.MatchingAppend | src/Repositories/ElasticMigrationRepository.php:38-69 | matching over documents indexed one after another is the matches of each, in order |
| LedgerProperties.InsertAddsOneMatch | src/Repositories/ElasticMigrationRepository.php:38-69 | inserting a record adds exactly that record to the matches of its name and nothing to any other name's |
| LedgerProperties.DeletePartitions | src/Repositories/ElasticMigrationRepository.php:71-88 | the documents deleted and those kept together make up the ledger, as a multiset and in number |
| LedgerProperties.DeleteUnchangedIffNoMatch | src/Repositories/ElasticMigrationRepository.php:71-88 | deleting by name leaves the ledger as it was exactly when nothing matches the name |
| LedgerProperties.DeleteKeepsOtherNames | src/Repositories/ElasticMigrationRepository.php:71-88 | deleting by one name leaves the matches of every other name unchanged |
| LedgerProperties.MaxBatchAfterInsert | src/Repositories/ElasticMigrationRepository.php:38-108 | after an insert the last batch number is the inserted batch if it is larger (or the ledger was empty), and otherwise unchanged |

## Left out

- The Elasticsearch client and the index manager are not part of this model: the in-memory ledger stands for the index. Transport failures, timeouts and retries are not modelled.
- The `match` query is modelled as exact equality of names; the text analysis of the `migration` field (tokenising, which can make different names match) is not modelled.
- Every write is modelled as visible at once. The code forces a refresh only on delete; an insert may become visible to counts and searches later.
- Concurrent runners (two check-then-insert sequences racing) are not modelled.
- Repositories.ElasticMigrationRepository.Insert: on a missing index, by default the store creates the index on the fly, with a mapping of its own, and reports the document `created`; the model returns `IndexNotFound` instead and changes nothing.
- The `integer` mapping limits `batch` to 32-bit values; the store rejects larger ones. The model takes any integer.
- The order among documents of equal sort key, and among hits of equal score, is the store's; the model takes store (indexing) order.
- The repository reads only `table` from the configuration file (`elastic.migrations.table`, the index name); here the index name is a constructor parameter. The file's other settings (`driver`, `storage_directory`, `index_name_prefix`) are used elsewhere and are not modelled.
- `MigrationRepositoryInterface` only declares the six methods modelled above.
- Repositories.ElasticMigrationRepository.GetLastBatch: returns at most the store's default `top_hits` window of the last batch (3 documents), as the code does; it does not promise the whole last batch.
- Repositories.ElasticMigrationRepository.GetAll: returns at most the store's default search window (10 documents), as the code does; it does not promise the whole ledger.
