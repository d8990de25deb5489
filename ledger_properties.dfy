/**
  What the ledger's queries promise over any index: how indexing a document
  and deleting by name change what a `match` query selects, and how indexing
  moves the greatest batch.
 */
module LedgerProperties {
  import opened ElasticStore

  /** A `match` query on `name` selects something exactly when some document is named `name`. */
  lemma MatchingNonEmpty(docs: seq<MigrationRecord>, name: string)
    ensures Matching(docs, name) != [] <==> exists i :: 0 <= i < |docs| && docs[i].migration == name
  {
  }

  /** A `match` query distributes over the concatenation of two runs of documents. */
  lemma {:induction false} MatchingAppend(a: seq<MigrationRecord>, b: seq<MigrationRecord>, name: string)
    ensures Matching(a + b, name) == Matching(a, name) + Matching(b, name)
  {
    if a == [] {
      assert a + b == b;
    } else {
      assert (a + b)[1..] == a[1..] + b;
      MatchingAppend(a[1..], b, name);
    }
  }

  /** A batch's bucket distributes over the concatenation of two runs of documents, keeping store order. */
  lemma {:induction false} InBatchAppend(a: seq<MigrationRecord>, b: seq<MigrationRecord>, batch: int)
    ensures InBatch(a + b, batch) == InBatch(a, batch) + InBatch(b, batch)
  {
    if a == [] {
      assert a + b == b;
    } else {
      assert (a + b)[1..] == a[1..] + b;
      InBatchAppend(a[1..], b, batch);
    }
  }

  /**
    Indexing `doc` adds exactly that document to what a `match` on its own
    name selects, and nothing to what a `match` on any other name selects.
   */
  lemma InsertAddsOneMatch(docs: seq<MigrationRecord>, doc: MigrationRecord)
    ensures Matching(docs + [doc], doc.migration) == Matching(docs, doc.migration) + [doc]
    ensures forall name :: name != doc.migration ==> Matching(docs + [doc], name) == Matching(docs, name)
  {
    MatchingAppend(docs, [doc], doc.migration);
    forall name | name != doc.migration
      ensures Matching(docs + [doc], name) == Matching(docs, name)
    {
      MatchingAppend(docs, [doc], name);
    }
  }

  /** Deleting by name splits the index into what is removed and what is kept, with nothing lost. */
  lemma {:induction false} DeletePartitions(docs: seq<MigrationRecord>, name: string)
    ensures |Matching(docs, name)| + |NotMatching(docs, name)| == |docs|
    ensures multiset(Matching(docs, name)) + multiset(NotMatching(docs, name)) == multiset(docs)
  {
    if docs != [] {
      DeletePartitions(docs[1..], name);
      assert docs == [docs[0]] + docs[1..];
    }
  }

  /** Deleting by name changes the index exactly when some document matches the name. */
  lemma {:induction false} DeleteUnchangedIffNoMatch(docs: seq<MigrationRecord>, name: string)
    ensures NotMatching(docs, name) == docs <==> Matching(docs, name) == []
  {
    if docs != [] {
      DeleteUnchangedIffNoMatch(docs[1..], name);
      if docs[0].migration == name {
        assert |NotMatching(docs, name)| < |docs|;
      }
    }
  }

  /** Deleting by one name leaves what a `match` on any other name selects as it was. */
  lemma {:induction false} DeleteKeepsOtherNames(docs: seq<MigrationRecord>, name: string, other: string)
    requires other != name
    ensures Matching(NotMatching(docs, name), other) == Matching(docs, other)
  {
    if docs != [] {
      DeleteKeepsOtherNames(docs[1..], name, other);
      if docs[0].migration != name {
        assert NotMatching(docs, name) == [docs[0]] + NotMatching(docs[1..], name);
        MatchingAppend([docs[0]], NotMatching(docs[1..], name), other);
      }
    }
  }

  /**
    Indexing a document raises the greatest batch to the document's batch when
    that is larger and otherwise leaves it alone; on an empty index it becomes
    the document's batch.
   */
  lemma MaxBatchAfterInsert(docs: seq<MigrationRecord>, doc: MigrationRecord)
    ensures MaxBatch(docs + [doc]) == if docs == [] || doc.batch > MaxBatch(docs) then doc.batch else MaxBatch(docs)
  {
    var all := docs + [doc];
    var m := MaxBatch(all);
    assert all[|docs|] == doc;
    if docs != [] {
      var k :| 0 <= k < |docs| && docs[k].batch == MaxBatch(docs);
      assert all[k] == docs[k];
      var j :| 0 <= j < |all| && all[j].batch == m;
      if j < |docs| {
        assert all[j] == docs[j];
      }
    }
  }
}
