/** The two stores both halves of the pipeline use. A MongoDB collection is
    its documents in natural (insertion) order; `find_one` returns the first
    one matching the query. A Pinecone index maps each vector id to the
    values and metadata last upserted under it. */
module Stores {
  import opened Python

  /** A stored document: field name to scalar value. */
  type Record = map<string, Value>

  /** Field names of stored documents and of vector metadata. */
  const DOC_ID := "doc_id"
  const CONTENT := "content"
  const IMG_URL := "img_url"
  const TYPE := "type"
  const SUMMARY := "summary"

  /** The two values of the `type` metadata field. */
  const TEXT_KIND := "text"
  const IMAGE_KIND := "image"

  /** `{"doc_id": id, "content": content}`, the only shape ingestion inserts. */
  function ContentRecord(id: string, content: string): Record {
    map[DOC_ID := Str(id), CONTENT := Str(content)]
  }

  /** Whether a document satisfies the query `{"doc_id": id}`. */
  predicate Matches(d: Record, id: string) {
    DOC_ID in d && d[DOC_ID] == Str(id)
  }

  /** The position of the first document matching `{"doc_id": id}`, or
      `|docs|` when none does. */
  function FirstMatch(docs: seq<Record>, id: string): (k: nat)
    ensures k <= |docs|
    ensures k < |docs| ==> Matches(docs[k], id)
    ensures forall j :: 0 <= j < k ==> !Matches(docs[j], id)
  {
    if docs == [] then 0
    else if Matches(docs[0], id) then 0
    else
      var k := FirstMatch(docs[1..], id);
      assert forall j :: 1 <= j < k + 1 ==> docs[j] == docs[1..][j - 1];
      1 + k
  }

  /** `collection.find_one({"doc_id": id})`: `None` exactly when no document
      matches; otherwise a matching document stored in the collection. */
  function FindOne(docs: seq<Record>, id: string): (r: Option<Record>)
    ensures r.Some? <==> exists k :: 0 <= k < |docs| && Matches(docs[k], id)
    ensures r.Some? ==> r.value in docs && Matches(r.value, id)
  {
    var k := FirstMatch(docs, id);
    if k < |docs| then Some(docs[k]) else None
  }

  predicate HasDoc(docs: seq<Record>, id: string) {
    FindOne(docs, id).Some?
  }

  /** The first match in a concatenation is the first match in the front
      part, if there is one, and the first in the back part otherwise. */
  lemma FirstMatchConcat(a: seq<Record>, b: seq<Record>, id: string)
    ensures FirstMatch(a + b, id)
            == if FirstMatch(a, id) < |a| then FirstMatch(a, id) else |a| + FirstMatch(b, id)
  {
    var k := FirstMatch(a + b, id);
    var ka, kb := FirstMatch(a, id), FirstMatch(b, id);
    if ka < |a| {
      assert (a + b)[ka] == a[ka];
      assert forall j :: 0 <= j < ka ==> (a + b)[j] == a[j];
    } else {
      assert forall j :: 0 <= j < |a| ==> (a + b)[j] == a[j];
      if kb < |b| { assert (a + b)[|a| + kb] == b[kb]; }
      assert forall j :: |a| <= j < |a| + kb ==> (a + b)[j] == b[j - |a|];
    }
  }

  /** Appending documents never changes what an earlier match returns, so
      a reference that resolved keeps resolving to the same document. */
  lemma FindOneStable(docs: seq<Record>, more: seq<Record>, id: string)
    requires HasDoc(docs, id)
    ensures FindOne(docs + more, id) == FindOne(docs, id)
  {
    FirstMatchConcat(docs, more, id);
    assert (docs + more)[FirstMatch(docs, id)] == docs[FirstMatch(docs, id)];
  }

  /** A MongoDB collection; ingestion only ever inserts. */
  class Collection {
    var docs: seq<Record>

    constructor (docs: seq<Record>)
      ensures this.docs == docs
    {
      this.docs := docs;
    }

    /** `insert_one(doc)`: the document goes after all existing ones. */
    method InsertOne(doc: Record)
      modifies this
      ensures docs == old(docs) + [doc]
    {
      docs := docs + [doc];
    }
  }

  /** An embedding vector; its numbers are opaque to the model. */
  type Embedding = seq<real>

  /** Vector metadata: `type`, `summary` and `doc_id`, all strings. */
  type Metadata = map<string, string>

  /** One element of an `upsert(vectors=...)` batch. */
  datatype Vector = Vector(id: string, values: Embedding, metadata: Metadata)

  /** What the index keeps under an id. */
  datatype IndexEntry = IndexEntry(values: Embedding, metadata: Metadata)

  function EntryOf(v: Vector): IndexEntry {
    IndexEntry(v.values, v.metadata)
  }

  /** The index after upserting `batch` in order: each vector writes or
      replaces the entry under its id. */
  function UpsertAll(entries: map<string, IndexEntry>, batch: seq<Vector>): map<string, IndexEntry> {
    if batch == [] then entries
    else UpsertAll(entries, batch[..|batch| - 1])[batch[|batch| - 1].id := EntryOf(batch[|batch| - 1])]
  }

  /** Upserting two batches one after the other is upserting their
      concatenation. */
  lemma {:induction false} UpsertAllConcat(entries: map<string, IndexEntry>, a: seq<Vector>, b: seq<Vector>)
    ensures UpsertAll(UpsertAll(entries, a), b) == UpsertAll(entries, a + b)
  {
    if b == [] {
      assert a + b == a;
    } else {
      var init, last := b[..|b| - 1], b[|b| - 1];
      UpsertAllConcat(entries, a, init);
      assert (a + b)[..|a + b| - 1] == a + init;
      assert (a + b)[|a + b| - 1] == last;
    }
  }

  /** Every id in the index after an upsert either holds the entry of some
      vector of the batch carrying that id, or was there before and is
      untouched. */
  lemma {:induction false} UpsertAllSource(entries: map<string, IndexEntry>, batch: seq<Vector>, id: string)
    requires id in UpsertAll(entries, batch)
    ensures || (exists k :: 0 <= k < |batch| && batch[k].id == id && UpsertAll(entries, batch)[id] == EntryOf(batch[k]))
            || (id in entries && UpsertAll(entries, batch)[id] == entries[id])
  {
    if batch != [] {
      var init, last := batch[..|batch| - 1], batch[|batch| - 1];
      if last.id != id {
        UpsertAllSource(entries, init, id);
        if exists k :: 0 <= k < |init| && init[k].id == id && UpsertAll(entries, init)[id] == EntryOf(init[k]) {
          var k :| 0 <= k < |init| && init[k].id == id && UpsertAll(entries, init)[id] == EntryOf(init[k]);
          assert batch[k] == init[k];
        }
      } else {
        assert batch[|batch| - 1].id == id;
      }
    }
  }

  /** A vector whose id no later vector of the batch repeats is what the
      index holds under that id afterwards. */
  lemma {:induction false} UpsertAllLatest(entries: map<string, IndexEntry>, batch: seq<Vector>, k: nat)
    requires k < |batch|
    requires forall j :: k < j < |batch| ==> batch[j].id != batch[k].id
    ensures batch[k].id in UpsertAll(entries, batch)
    ensures UpsertAll(entries, batch)[batch[k].id] == EntryOf(batch[k])
  {
    if k < |batch| - 1 {
      var init := batch[..|batch| - 1];
      assert init[k] == batch[k];
      UpsertAllLatest(entries, init, k);
    }
  }

  /** An id no vector of the batch carries keeps its entry, or its absence. */
  lemma {:induction false} UpsertAllUntouched(entries: map<string, IndexEntry>, batch: seq<Vector>, id: string)
    requires forall j :: 0 <= j < |batch| ==> batch[j].id != id
    ensures id in UpsertAll(entries, batch) <==> id in entries
    ensures id in entries ==> UpsertAll(entries, batch)[id] == entries[id]
  {
    if batch != [] {
      UpsertAllUntouched(entries, batch[..|batch| - 1], id);
    }
  }

  /** A Pinecone index. `batches` records every `upsert` call's argument in
      call order; it is bookkeeping for the proofs, not index state. */
  class VectorIndex {
    var entries: map<string, IndexEntry>
    ghost var batches: seq<seq<Vector>>

    constructor (entries: map<string, IndexEntry>)
      ensures this.entries == entries && batches == []
    {
      this.entries := entries;
      batches := [];
    }

    /** `index.upsert(vectors=batch)`. */
    method Upsert(batch: seq<Vector>)
      modifies this
      ensures entries == UpsertAll(old(entries), batch)
      ensures batches == old(batches) + [batch]
    {
      entries := UpsertAll(entries, batch);
      batches := batches + [batch];
    }
  }
}
