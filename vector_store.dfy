/** The per-notebook vector index: one collection of entries per notebook
    name, created, opened, extended, queried and removed. Embedding and the
    nearest-neighbour search are opaque functions handed in by the caller. */
module VectorStoreManager {
  import opened Wrappers
  import opened PyText

  /** An embedding vector; its values are never inspected here. */
  type Embedding = seq<real>

  type Metadata = map<string, string>

  /** One stored document. */
  datatype Entry = Entry(id: string, embedding: Embedding, document: string, metadata: Option<Metadata>)

  /** One row of a query result: a document and its distance to the query. */
  datatype Hit = Hit(document: string, distance: real)

  /** A handle on the collection of the notebook `name`. */
  datatype Collection = Collection(name: string)

  /** The id given to the `k`-th document of a collection. */
  function IdFor(k: nat): string {
    "document_" + NatToString(k)
  }

  /** Different positions get different ids. */
  lemma IdForInjective(a: nat, b: nat)
    requires IdFor(a) == IdFor(b)
    ensures a == b
  {
    assert IdFor(a)[9..] == NatToString(a);
    assert IdFor(b)[9..] == NatToString(b);
    NatToStringInjective(a, b);
  }

  /** The entries of a collection carry the ids `document_0`,
      `document_1`, ... in order. */
  predicate SequentialIds(entries: seq<Entry>) {
    forall i :: 0 <= i < |entries| ==> entries[i].id == IdFor(i)
  }

  /** Every collection of the store has sequential ids. */
  predicate AllSequential(storage: map<string, seq<Entry>>) {
    forall name :: name in storage ==> SequentialIds(storage[name])
  }

  // ---------------------------------------------------------------------
  // Opening and creating collections
  // ---------------------------------------------------------------------

  /** The store after `initialize_collection(name, reset)`: an existing
      collection is kept as it is unless a reset is asked for; otherwise the
      notebook gets a fresh, empty collection. */
  function Initialized(storage: map<string, seq<Entry>>, name: string, reset: bool): (r: map<string, seq<Entry>>)
    ensures r.Keys == storage.Keys + {name}
    ensures reset || name !in storage ==> r[name] == []
    ensures !reset && name in storage ==> r[name] == storage[name]
    ensures forall other :: other in storage && other != name ==> r[other] == storage[other]
  {
    if name in storage && !reset then storage else storage[name := []]
  }

  /** `get_collection(name)`: fails exactly when the notebook has no storage. */
  function Lookup(storage: map<string, seq<Entry>>, name: string): (r: Result<Collection>)
    ensures r.Ok? <==> name in storage
    ensures r.Ok? ==> r.value.name == name
  {
    if name in storage then Ok(Collection(name)) else Err(StorageNotFound(name))
  }

  /** Opening fails exactly when there is no storage, and then names the
      notebook. */
  lemma LookupFailsIffAbsent(storage: map<string, seq<Entry>>, name: string)
    ensures Lookup(storage, name).Err? <==> name !in storage
    ensures name !in storage ==> Lookup(storage, name) == Err(StorageNotFound(name))
    ensures name in storage ==> Lookup(storage, name) == Ok(Collection(name))
  {
  }

  /** Initialising without a reset never touches existing entries, so doing
      it twice is the same as doing it once. */
  lemma InitializeKeepsExisting(storage: map<string, seq<Entry>>, name: string)
    ensures name in storage ==> Initialized(storage, name, false) == storage
    ensures Initialized(Initialized(storage, name, false), name, false) == Initialized(storage, name, false)
  {
  }

  /** Initialising with a reset leaves that notebook with an empty
      collection and every other notebook as it was. */
  lemma InitializeResetEmpties(storage: map<string, seq<Entry>>, name: string)
    ensures name in Initialized(storage, name, true) && Initialized(storage, name, true)[name] == []
    ensures forall other :: other != name ==>
              (other in Initialized(storage, name, true) <==> other in storage)
              && (other in storage ==> Initialized(storage, name, true)[other] == storage[other])
  {
  }

  /** After initialising, the notebook can be opened. */
  lemma InitializeThenLookup(storage: map<string, seq<Entry>>, name: string, reset: bool)
    ensures Lookup(Initialized(storage, name, reset), name) == Ok(Collection(name))
  {
  }

  // ---------------------------------------------------------------------
  // Adding documents
  // ---------------------------------------------------------------------

  /** The ids `document_{count}` ... `document_{count + n - 1}`. */
  function NewIds(count: nat, n: nat): (ids: seq<string>)
    ensures |ids| == n
  {
    seq(n, i requires 0 <= i < n => IdFor(count + i))
  }

  /** Python truthiness of the optional metadata list. */
  predicate MetadataGiven(metadata: Option<seq<Metadata>>) {
    metadata.Some? && metadata.value != []
  }

  /** The entries `add_documents` appends to a collection holding `count`
      entries; metadata is attached only when the metadata list is truthy. */
  function NewEntries(count: nat, documents: seq<string>, metadata: Option<seq<Metadata>>,
                      embed: string -> Embedding): seq<Entry>
    requires MetadataGiven(metadata) ==> |metadata.value| == |documents|
  {
    var ids := NewIds(count, |documents|);
    seq(|documents|, i requires 0 <= i < |documents| =>
      Entry(ids[i], embed(documents[i]), documents[i],
            if MetadataGiven(metadata) then Some(metadata.value[i]) else None))
  }

  /** The store after `add_documents`: the database refuses a truthy
      metadata list whose length differs from the number of documents. */
  function Added(storage: map<string, seq<Entry>>, name: string, documents: seq<string>,
                 metadata: Option<seq<Metadata>>, embed: string -> Embedding): (r: Result<map<string, seq<Entry>>>)
    requires name in storage
    ensures r.Err? ==> r == Err(MetadataMismatch)
    ensures r.Ok? ==> r.value.Keys == storage.Keys && storage[name] <= r.value[name]
  {
    if MetadataGiven(metadata) && |metadata.value| != |documents| then Err(MetadataMismatch)
    else Ok(storage[name := storage[name] + NewEntries(|storage[name]|, documents, metadata, embed)])
  }

  /** The new entries get the ids following the prior count, each paired
      with its own document, in order; metadata is present exactly when the
      metadata list is truthy. */
  lemma NewEntriesShape(count: nat, documents: seq<string>, metadata: Option<seq<Metadata>>,
                        embed: string -> Embedding)
    requires MetadataGiven(metadata) ==> |metadata.value| == |documents|
    ensures var added := NewEntries(count, documents, metadata, embed);
            |added| == |documents|
            && (forall i :: 0 <= i < |added| ==>
                  added[i].id == IdFor(count + i) && added[i].document == documents[i]
                  && added[i].embedding == embed(documents[i])
                  && (added[i].metadata.Some? <==> MetadataGiven(metadata))
                  && (MetadataGiven(metadata) ==> added[i].metadata == Some(metadata.value[i])))
  {
  }

  /** A successful add grows the collection by the number of documents and
      leaves the prior entries, and every other notebook, unchanged. */
  lemma AddedGrows(storage: map<string, seq<Entry>>, name: string, documents: seq<string>,
                   metadata: Option<seq<Metadata>>, embed: string -> Embedding)
    requires name in storage
    ensures Added(storage, name, documents, metadata, embed).Ok?
            <==> !MetadataGiven(metadata) || |metadata.value| == |documents|
    ensures Added(storage, name, documents, metadata, embed).Ok? ==>
              var after := Added(storage, name, documents, metadata, embed).value;
              after.Keys == storage.Keys
              && |after[name]| == |storage[name]| + |documents|
              && after[name][..|storage[name]|] == storage[name]
              && forall other :: other in storage && other != name ==> after[other] == storage[other]
  {
  }

  /** Sequential ids survive an add, and no new id repeats an old one. */
  lemma AddedKeepsSequential(storage: map<string, seq<Entry>>, name: string, documents: seq<string>,
                             metadata: Option<seq<Metadata>>, embed: string -> Embedding)
    requires name in storage && AllSequential(storage)
    requires Added(storage, name, documents, metadata, embed).Ok?
    ensures AllSequential(Added(storage, name, documents, metadata, embed).value)
    ensures var before := storage[name];
            var after := Added(storage, name, documents, metadata, embed).value[name];
            forall i, j :: 0 <= i < |before| <= j < |after| ==> after[i].id != after[j].id
  {
    var before := storage[name];
    var added := NewEntries(|before|, documents, metadata, embed);
    var after := before + added;
    NewEntriesShape(|before|, documents, metadata, embed);
    forall i | 0 <= i < |after|
      ensures after[i].id == IdFor(i)
    {
      if i >= |before| {
        assert after[i] == added[i - |before|];
      }
    }
    forall i, j | 0 <= i < |before| <= j < |after|
      ensures after[i].id != after[j].id
    {
      if after[i].id == after[j].id {
        IdForInjective(i, j);
      }
    }
  }

  // ---------------------------------------------------------------------
  // Retrieval
  // ---------------------------------------------------------------------

  /** The documents of `hits` whose distance is strictly below `threshold`,
      in the order returned. */
  function Relevant(hits: seq<Hit>, threshold: real): (r: seq<string>)
    ensures |r| <= |hits|
  {
    if hits == [] then []
    else
      var last := hits[|hits| - 1];
      Relevant(hits[..|hits| - 1], threshold) + (if last.distance < threshold then [last.document] else [])
  }

  /** The positions of the hits kept by the filter, in increasing order. */
  function KeptPositions(hits: seq<Hit>, threshold: real): seq<nat> {
    if hits == [] then []
    else
      var n := |hits| - 1;
      KeptPositions(hits[..n], threshold) + (if hits[n].distance < threshold then [n] else [])
  }

  /** The filter result is the order-preserving subsequence of the returned
      documents picked out by the kept positions, and a position is kept
      exactly when its distance is strictly below the threshold. */
  lemma {:induction false} RelevantIsFilter(hits: seq<Hit>, threshold: real)
    ensures var r, ks := Relevant(hits, threshold), KeptPositions(hits, threshold);
            |r| == |ks|
            && (forall k :: 0 <= k < |ks| ==> ks[k] < |hits| && r[k] == hits[ks[k]].document)
            && (forall k, l :: 0 <= k < l < |ks| ==> ks[k] < ks[l])
            && (forall i :: 0 <= i < |hits| ==> (i in ks <==> hits[i].distance < threshold))
  {
    if hits != [] {
      var n := |hits| - 1;
      var front := hits[..n];
      RelevantIsFilter(front, threshold);
      assert forall i :: 0 <= i < n ==> front[i] == hits[i];
      var r0, ks0 := Relevant(front, threshold), KeptPositions(front, threshold);
      assert forall k :: 0 <= k < |ks0| ==> ks0[k] < n;
      assert n !in ks0;
    }
  }

  /** A document is in the result exactly when some returned hit with that
      document lies strictly below the threshold. */
  lemma {:induction false} RelevantMembership(hits: seq<Hit>, threshold: real, d: string)
    ensures d in Relevant(hits, threshold)
            <==> exists i :: 0 <= i < |hits| && hits[i].document == d && hits[i].distance < threshold
  {
    if hits != [] {
      var n := |hits| - 1;
      RelevantMembership(hits[..n], threshold, d);
      if d in Relevant(hits[..n], threshold) {
        var i :| 0 <= i < n && hits[..n][i].document == d && hits[..n][i].distance < threshold;
        assert hits[i] == hits[..n][i];
      }
      if exists i :: 0 <= i < n && hits[i].document == d && hits[i].distance < threshold {
        var i :| 0 <= i < n && hits[i].document == d && hits[i].distance < threshold;
        assert hits[..n][i] == hits[i];
      }
    }
  }

  /** A hit exactly at the threshold is dropped. */
  lemma ThresholdExcluded(d: string, threshold: real)
    ensures Relevant([Hit(d, threshold)], threshold) == []
  {
    assert [Hit(d, threshold)][..0] == [];
  }

  /** `retrieve_relevant_documents`, as a function of the store: fails when
      the notebook has no storage, otherwise filters the hits the search
      returns for the embedded query. */
  function RetrieveRelevant(storage: map<string, seq<Entry>>, name: string, query: string, nResults: int,
                            threshold: real, embedQuery: string -> Embedding,
                            search: (seq<Entry>, Embedding, int) -> seq<Hit>): (r: Result<seq<string>>)
    ensures r.Ok? <==> name in storage
    ensures r.Err? ==> r == Err(StorageNotFound(name))
    ensures r.Ok? ==> |r.value| <= |search(storage[name], embedQuery(query), nResults)|
  {
    var collection :- Lookup(storage, name);
    Ok(Relevant(search(storage[name], embedQuery(query), nResults), threshold))
  }

  /** Retrieval fails exactly when the notebook has no storage. */
  lemma RetrieveFailsIffAbsent(storage: map<string, seq<Entry>>, name: string, query: string, nResults: int,
                               threshold: real, embedQuery: string -> Embedding,
                               search: (seq<Entry>, Embedding, int) -> seq<Hit>)
    ensures RetrieveRelevant(storage, name, query, nResults, threshold, embedQuery, search).Err?
            <==> name !in storage
    ensures name !in storage ==>
              RetrieveRelevant(storage, name, query, nResults, threshold, embedQuery, search)
              == Err(StorageNotFound(name))
  {
  }

  /** The vector database directory: one collection per notebook name. */
  class VectorStore {
    var storage: map<string, seq<Entry>>

    constructor()
      ensures storage == map[]
    {
      storage := map[];
    }

    /** `initialize_collection(name, delete_existing)`. */
    method InitializeCollection(name: string, deleteExisting: bool) returns (c: Collection)
      modifies this
      ensures storage == Initialized(old(storage), name, deleteExisting)
      ensures c == Collection(name)
    {
      if name in storage && deleteExisting {
        storage := storage - {name};
      }
      if name !in storage {
        storage := storage[name := []];
      }
      c := Collection(name);
    }

    /** `get_collection(name)`. */
    method GetCollection(name: string) returns (r: Result<Collection>)
      ensures r == Lookup(storage, name)
    {
      if name !in storage {
        return Err(StorageNotFound(name));
      }
      r := Ok(Collection(name));
    }

    /** `add_documents(collection, documents, metadata)`: ids continue from
        the collection's current count. */
    method AddDocuments(c: Collection, documents: seq<string>, metadata: Option<seq<Metadata>>,
                        embed: string -> Embedding) returns (r: Outcome)
      requires c.name in storage
      modifies this
      ensures var after := Added(old(storage), c.name, documents, metadata, embed);
              if after.Ok? then r == Pass && storage == after.value
              else r == Fail(after.error) && storage == old(storage)
    {
      var nextId := |storage[c.name]|;
      var ids := NewIds(nextId, |documents|);
      if MetadataGiven(metadata) {
        if |metadata.value| != |documents| {
          return Fail(MetadataMismatch);
        }
        var added := seq(|documents|, i requires 0 <= i < |documents| =>
                         Entry(ids[i], embed(documents[i]), documents[i], Some(metadata.value[i])));
        assert added == NewEntries(nextId, documents, metadata, embed);
        storage := storage[c.name := storage[c.name] + added];
      } else {
        var added := seq(|documents|, i requires 0 <= i < |documents| =>
                         Entry(ids[i], embed(documents[i]), documents[i], None));
        assert added == NewEntries(nextId, documents, metadata, embed);
        storage := storage[c.name := storage[c.name] + added];
      }
      r := Pass;
    }

    /** `retrieve_relevant_documents(name, query, n_results, threshold)`. */
    method RetrieveRelevantDocuments(name: string, query: string, nResults: int, threshold: real,
                                     embedQuery: string -> Embedding,
                                     search: (seq<Entry>, Embedding, int) -> seq<Hit>)
      returns (r: Result<seq<string>>)
      ensures r == RetrieveRelevant(storage, name, query, nResults, threshold, embedQuery, search)
    {
      var collection := GetCollection(name);
      if collection.Err? {
        return Err(collection.error);
      }
      var hits := search(storage[name], embedQuery(query), nResults);
      var relevant: seq<string> := [];
      for i := 0 to |hits|
        invariant relevant == Relevant(hits[..i], threshold)
      {
        assert hits[..i + 1][..i] == hits[..i];
        if hits[i].distance < threshold {
          relevant := relevant + [hits[i].document];
        }
      }
      assert hits[..|hits|] == hits;
      r := Ok(relevant);
    }

    /** `list_notebooks()`: every notebook with storage, each once, in no
        particular order. */
    method ListNotebooks() returns (names: seq<string>)
      ensures forall n :: n in names <==> n in storage
      ensures forall i, j :: 0 <= i < j < |names| ==> names[i] != names[j]
    {
      names := [];
      var remaining := storage.Keys;
      while remaining != {}
        invariant remaining <= storage.Keys
        invariant forall n :: n in names <==> n in storage && n !in remaining
        invariant forall i, j :: 0 <= i < j < |names| ==> names[i] != names[j]
        decreases |remaining|
      {
        var n :| n in remaining;
        names := names + [n];
        remaining := remaining - {n};
      }
    }

    /** `delete_notebook(name)`: reports whether there was storage to
        remove. */
    method DeleteNotebook(name: string) returns (existed: bool)
      modifies this
      ensures existed <==> name in old(storage)
      ensures storage == old(storage) - {name}
    {
      if name !in storage {
        return false;
      }
      storage := storage - {name};
      existed := true;
    }
  }

  /** After a deletion the notebook can no longer be opened, and a later
      initialisation starts it from an empty collection. */
  lemma DeleteThenLookupFails(storage: map<string, seq<Entry>>, name: string)
    ensures Lookup(storage - {name}, name) == Err(StorageNotFound(name))
    ensures Initialized(storage - {name}, name, false)[name] == []
  {
  }

  /** Deleting a notebook without storage changes nothing. */
  lemma DeleteAbsentUnchanged(storage: map<string, seq<Entry>>, name: string)
    requires name !in storage
    ensures storage - {name} == storage
  {
  }
}
