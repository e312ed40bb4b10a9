/** Ingestion into the two stores (vectordb_store.py): for each chunk or
    image one content record goes into its MongoDB collection, then one
    vector per summary is built and upserted into the shared Pinecone index
    in slices of 100. The uuid draws are the parameter `uuids` and the
    sentence embedder is the parameter `embed`. */
module VectorDbStore {
  import opened Python
  import opened Strings
  import opened Seqs
  import opened GetImages
  import opened Stores

  const TEXT_PREFIX := "text_"
  const IMAGE_PREFIX := "image_"
  const BATCH_SIZE := 100

  /** `[f"{prefix}{uuid.uuid4()}" for _ in items]`, with the uuid draws given. */
  function DocIds(prefix: string, uuids: seq<string>): (ids: seq<string>)
    ensures |ids| == |uuids|
    ensures forall k :: 0 <= k < |ids| ==> prefix <= ids[k] && ids[k][|prefix|..] == uuids[k]
  {
    if uuids == [] then []
    else DocIds(prefix, uuids[..|uuids| - 1]) + [prefix + uuids[|uuids| - 1]]
  }

  /** Distinct uuid draws give distinct ids. */
  lemma {:induction false} DocIdsDistinct(prefix: string, uuids: seq<string>)
    requires Distinct(uuids)
    ensures Distinct(DocIds(prefix, uuids))
  {
    var ids := DocIds(prefix, uuids);
    forall i, j | 0 <= i < j < |ids| ensures ids[i] != ids[j] {
      assert ids[i][|prefix|..] != ids[j][|prefix|..];
    }
  }

  /** Text ids and image ids never collide in the shared index. */
  lemma TextAndImageIdsDisjoint(textUuids: seq<string>, imageUuids: seq<string>)
    ensures forall i, j :: 0 <= i < |textUuids| && 0 <= j < |imageUuids| ==>
              DocIds(TEXT_PREFIX, textUuids)[i] != DocIds(IMAGE_PREFIX, imageUuids)[j]
  {
    var t, m := DocIds(TEXT_PREFIX, textUuids), DocIds(IMAGE_PREFIX, imageUuids);
    forall i, j | 0 <= i < |textUuids| && 0 <= j < |imageUuids| ensures t[i] != m[j] {
      assert t[i][0] == 't' && m[j][0] == 'i';
    }
  }

  /** `hasattr(elem, 'text') and elem.text`. */
  predicate HasText(e: Element) {
    e.text.Some? && e.text.value != ""
  }

  function TextOf(e: Element): string {
    if e.text.Some? then e.text.value else ""
  }

  /** `str(elem.text) for elem in orig_elements if hasattr(elem, 'text') and elem.text`. */
  function ElementTexts(els: seq<Element>): seq<string> {
    if els == [] then []
    else
      var last := els[|els| - 1];
      ElementTexts(els[..|els| - 1]) + (if HasText(last) then [TextOf(last)] else [])
  }

  /** The texts joined are those of the elements that have one, in order. */
  lemma {:induction false} ElementTextsAreNonEmptyTexts(els: seq<Element>)
    ensures ElementTexts(els) == Map(Filter(els, HasText), TextOf)
    ensures forall k :: 0 <= k < |ElementTexts(els)| ==> ElementTexts(els)[k] != ""
    ensures ElementTexts(els) == [] <==> forall e :: e in els ==> !HasText(e)
  {
    if els != [] {
      var init, last := els[..|els| - 1], els[|els| - 1];
      ElementTextsAreNonEmptyTexts(init);
      assert els == init + [last];
      FilterSnoc(init, last, HasText);
      if HasText(last) {
        MapSnoc(Filter(init, HasText), last, TextOf);
      } else {
        assert Filter(els, HasText) == Filter(init, HasText);
      }
    }
  }

  /** The content stored for a text chunk (vectordb_store.py:46-53): the
      space-join of its elements' non-empty texts when it has elements and
      one of them has text, and `str(text)` otherwise. */
  function TextContent(c: Chunk): (r: string)
    ensures c.origElements.None? ==> r == c.asString
    ensures c.origElements.Some? && (exists e :: e in c.origElements.value && HasText(e)) ==>
              r == Join(" ", Map(Filter(c.origElements.value, HasText), TextOf)) && r != ""
    ensures c.origElements.Some? && (forall e :: e in c.origElements.value ==> !HasText(e)) ==>
              r == c.asString
  {
    match c.origElements
    case None => c.asString
    case Some(els) =>
      ElementTextsAreNonEmptyTexts(els);
      var parts := ElementTexts(els);
      JoinStartsWithFirst(" ", parts);
      var chunkText := Join(" ", parts);
      if chunkText != "" then chunkText else c.asString
  }

  /** `str(img)` of an image payload, which is already a string. */
  function ImageContent(img: string): string {
    img
  }

  /** The records the insert loop writes, `{doc_id: ids[i], content: content(items[i])}`
      for each `i` in order. */
  function Records<T>(ids: seq<string>, items: seq<T>, content: T -> string): seq<Record>
    requires |ids| == |items|
  {
    if items == [] then []
    else Records(ids[..|ids| - 1], items[..|items| - 1], content)
         + [ContentRecord(ids[|ids| - 1], content(items[|items| - 1]))]
  }

  lemma {:induction false} RecordsAt<T>(ids: seq<string>, items: seq<T>, content: T -> string, k: nat)
    requires |ids| == |items| && k < |items|
    ensures |Records(ids, items, content)| == |items|
    ensures Records(ids, items, content)[k] == ContentRecord(ids[k], content(items[k]))
  {
    RecordsLength(ids, items, content);
    if k < |items| - 1 {
      RecordsAt(ids[..|ids| - 1], items[..|items| - 1], content, k);
    }
  }

  lemma {:induction false} RecordsLength<T>(ids: seq<string>, items: seq<T>, content: T -> string)
    requires |ids| == |items|
    ensures |Records(ids, items, content)| == |items|
  {
    if items != [] {
      RecordsLength(ids[..|ids| - 1], items[..|items| - 1], content);
    }
  }

  /** The insert loops (vectordb_store.py:45-54, 74-76): one record per item,
      in item order, after everything already in the collection. */
  method InsertContents<T>(collection: Collection, ids: seq<string>, items: seq<T>, content: T -> string)
    requires |ids| == |items|
    modifies collection
    ensures collection.docs == old(collection.docs) + Records(ids, items, content)
  {
    for i := 0 to |items|
      invariant collection.docs == old(collection.docs) + Records(ids[..i], items[..i], content)
    {
      assert ids[..i + 1][..i] == ids[..i];
      assert items[..i + 1][..i] == items[..i];
      collection.InsertOne(ContentRecord(ids[i], content(items[i])));
    }
    assert ids[..|ids|] == ids;
    assert items[..|items|] == items;
  }

  /** `{"type": kind, "summary": summary, "doc_id": id}`. */
  function VectorMetadata(kind: string, summary: string, id: string): Metadata {
    map[TYPE := kind, SUMMARY := summary, DOC_ID := id]
  }

  /** One vector per summary, paired with the id at the same position. */
  function Vectors(ids: seq<string>, summaries: seq<string>, embed: string -> Embedding, kind: string): seq<Vector>
    requires |summaries| <= |ids|
  {
    if summaries == [] then []
    else
      var k := |summaries| - 1;
      Vectors(ids, summaries[..k], embed, kind) + [Vector(ids[k], embed(summaries[k]), VectorMetadata(kind, summaries[k], ids[k]))]
  }

  /** Vector `k` carries id `ids[k]` both as its id and in its metadata, the
      kind, and summary `k` with its embedding. */
  lemma {:induction false} VectorsAt(ids: seq<string>, summaries: seq<string>, embed: string -> Embedding, kind: string, k: nat)
    requires |summaries| <= |ids| && k < |summaries|
    ensures |Vectors(ids, summaries, embed, kind)| == |summaries|
    ensures var v := Vectors(ids, summaries, embed, kind)[k];
            && v.id == ids[k] && v.values == embed(summaries[k])
            && v.metadata.Keys == {TYPE, SUMMARY, DOC_ID}
            && v.metadata[TYPE] == kind && v.metadata[SUMMARY] == summaries[k] && v.metadata[DOC_ID] == ids[k]
  {
    VectorsLength(ids, summaries, embed, kind);
    if k < |summaries| - 1 {
      VectorsAt(ids, summaries[..|summaries| - 1], embed, kind, k);
    }
  }

  lemma {:induction false} VectorsLength(ids: seq<string>, summaries: seq<string>, embed: string -> Embedding, kind: string)
    requires |summaries| <= |ids|
    ensures |Vectors(ids, summaries, embed, kind)| == |summaries|
  {
    if summaries != [] {
      VectorsLength(ids, summaries[..|summaries| - 1], embed, kind);
    }
  }

  /** The vector-building loop (vectordb_store.py:56-63, 78-85). It runs
      once per summary embedding and reads `ids[i]`, so more summaries
      than ids raise `IndexError`. */
  method BuildVectors(ids: seq<string>, summaries: seq<string>, embed: string -> Embedding, kind: string)
    returns (r: Result<seq<Vector>>)
    ensures |summaries| <= |ids| ==> r == Ok(Vectors(ids, summaries, embed, kind))
    ensures |summaries| > |ids| ==> r == Err(IndexError)
  {
    var embeddings := Map(summaries, embed);
    MapLength(summaries, embed);
    var vectors := [];
    for i := 0 to |embeddings|
      invariant i <= |ids|
      invariant vectors == Vectors(ids, summaries[..i], embed, kind)
    {
      if i >= |ids| {
        return Err(IndexError);
      }
      MapAt(summaries, embed, i);
      assert summaries[..i + 1][..i] == summaries[..i];
      vectors := vectors + [Vector(ids[i], embeddings[i], VectorMetadata(kind, summaries[i], ids[i]))];
    }
    assert summaries[..|summaries|] == summaries;
    return Ok(vectors);
  }

  /** The argument of each `index.upsert` call: consecutive slices of `n`,
      the last one possibly shorter. */
  function Slices<T>(v: seq<T>, n: nat): seq<seq<T>>
    requires n > 0
    decreases |v|
  {
    if v == [] then []
    else if |v| <= n then [v]
    else [v[..n]] + Slices(v[n..], n)
  }

  /** The slices, put back together, are the vectors in their order. */
  lemma {:induction false} SlicesFlatten<T>(v: seq<T>, n: nat)
    requires n > 0
    ensures Flatten(Slices(v, n)) == v
    decreases |v|
  {
    if v != [] {
      if |v| <= n {
        assert Slices(v, n) == [] + [v];
      } else {
        SlicesFlatten(v[n..], n);
        FlattenConcat([v[..n]], Slices(v[n..], n));
        assert Flatten([v[..n]]) == Flatten([]) + v[..n];
        assert v[..n] + v[n..] == v;
      }
    }
  }

  /** Every slice is non-empty and at most `n` long, and all but the last
      are exactly `n` long. */
  lemma {:induction false} SlicesSizes<T>(v: seq<T>, n: nat)
    requires n > 0
    ensures forall k :: 0 <= k < |Slices(v, n)| ==> 0 < |Slices(v, n)[k]| <= n
    ensures forall k :: 0 <= k < |Slices(v, n)| - 1 ==> |Slices(v, n)[k]| == n
    decreases |v|
  {
    if |v| > n {
      SlicesSizes(v[n..], n);
      var s := Slices(v, n);
      assert forall k :: 1 <= k < |s| ==> s[k] == Slices(v[n..], n)[k - 1];
    }
  }

  /** With slices of 100 there are ceil(n / 100) upsert calls. */
  lemma {:induction false} SlicesCount<T>(v: seq<T>)
    ensures |Slices(v, BATCH_SIZE)| == (|v| + BATCH_SIZE - 1) / BATCH_SIZE
    decreases |v|
  {
    if |v| > BATCH_SIZE {
      SlicesCount(v[BATCH_SIZE..]);
    }
  }

  /** 250 vectors go up as slices of 100, 100 and 50. */
  lemma SlicesOf250<T>(v: seq<T>)
    requires |v| == 250
    ensures |Slices(v, BATCH_SIZE)| == 3
    ensures |Slices(v, BATCH_SIZE)[0]| == 100 && |Slices(v, BATCH_SIZE)[1]| == 100 && |Slices(v, BATCH_SIZE)[2]| == 50
  {
    var s1 := v[100..];
    var s2 := s1[100..];
    assert Slices(s2, BATCH_SIZE) == [s2];
    assert Slices(s1, BATCH_SIZE) == [s1[..100]] + [s2];
  }

  /** `v[i:]`, empty once `i` is past the end. */
  function Rest<T>(v: seq<T>, i: nat): seq<T> {
    if i <= |v| then v[i..] else []
  }

  /** The upsert loop (vectordb_store.py:65-67, 87-89): `range(0, len(v), 100)`
      with the clamped slice `v[i:i + 100]`. The index ends as after
      upserting all vectors in order, through one call per slice. */
  method UpsertInSlices(index: VectorIndex, vectors: seq<Vector>)
    modifies index
    ensures index.entries == UpsertAll(old(index.entries), vectors)
    ensures index.batches == old(index.batches) + Slices(vectors, BATCH_SIZE)
  {
    var i := 0;
    while i < |vectors|
      invariant UpsertAll(index.entries, Rest(vectors, i)) == UpsertAll(old(index.entries), vectors)
      invariant index.batches + Slices(Rest(vectors, i), BATCH_SIZE) == old(index.batches) + Slices(vectors, BATCH_SIZE)
      decreases |vectors| - i
    {
      var end := if i + BATCH_SIZE < |vectors| then i + BATCH_SIZE else |vectors|;
      var batch := vectors[i..end];
      ghost var rest := vectors[i..];
      ghost var rest' := Rest(vectors, i + BATCH_SIZE);
      assert rest == batch + rest';
      if |rest| <= BATCH_SIZE {
        assert rest' == [] && batch == rest;
      } else {
        assert rest[..BATCH_SIZE] == batch && rest[BATCH_SIZE..] == rest';
      }
      assert Slices(rest, BATCH_SIZE) == [batch] + Slices(rest', BATCH_SIZE);
      UpsertAllConcat(index.entries, batch, rest');
      index.Upsert(batch);
      i := i + BATCH_SIZE;
    }
  }

  /** `add_text_documents(texts, text_summaries)`. The records are all
      inserted before any vector is built; the vectors are then upserted,
      unless there are more summaries than texts, in which case
      `IndexError` is raised with the index untouched. */
  method AddTextDocuments(textCollection: Collection, index: VectorIndex, texts: seq<Chunk>,
                          summaries: seq<string>, uuids: seq<string>, embed: string -> Embedding)
    returns (r: Result<seq<string>>)
    requires |uuids| == |texts|
    modifies textCollection, index
    ensures var ids := DocIds(TEXT_PREFIX, uuids);
            && textCollection.docs == old(textCollection.docs) + Records(ids, texts, TextContent)
            && (|summaries| <= |texts| ==>
                  && r == Ok(ids)
                  && index.entries == UpsertAll(old(index.entries), Vectors(ids, summaries, embed, TEXT_KIND))
                  && index.batches == old(index.batches) + Slices(Vectors(ids, summaries, embed, TEXT_KIND), BATCH_SIZE))
            && (|summaries| > |texts| ==>
                  r == Err(IndexError) && index.entries == old(index.entries) && index.batches == old(index.batches))
  {
    var ids := DocIds(TEXT_PREFIX, uuids);
    InsertContents(textCollection, ids, texts, TextContent);
    var vectors :- BuildVectors(ids, summaries, embed, TEXT_KIND);
    UpsertInSlices(index, vectors);
    return Ok(ids);
  }

  /** `add_image_documents(images, image_summaries)`, the same steps with
      `str(img)` as the content. */
  method AddImageDocuments(imageCollection: Collection, index: VectorIndex, images: seq<string>,
                           summaries: seq<string>, uuids: seq<string>, embed: string -> Embedding)
    returns (r: Result<seq<string>>)
    requires |uuids| == |images|
    modifies imageCollection, index
    ensures var ids := DocIds(IMAGE_PREFIX, uuids);
            && imageCollection.docs == old(imageCollection.docs) + Records(ids, images, ImageContent)
            && (|summaries| <= |images| ==>
                  && r == Ok(ids)
                  && index.entries == UpsertAll(old(index.entries), Vectors(ids, summaries, embed, IMAGE_KIND))
                  && index.batches == old(index.batches) + Slices(Vectors(ids, summaries, embed, IMAGE_KIND), BATCH_SIZE))
            && (|summaries| > |images| ==>
                  r == Err(IndexError) && index.entries == old(index.entries) && index.batches == old(index.batches))
  {
    var ids := DocIds(IMAGE_PREFIX, uuids);
    InsertContents(imageCollection, ids, images, ImageContent);
    var vectors :- BuildVectors(ids, summaries, embed, IMAGE_KIND);
    UpsertInSlices(index, vectors);
    return Ok(ids);
  }

  /** Every index entry of the given kind has a content record in `docs`. */
  predicate Backed(docs: seq<Record>, entries: map<string, IndexEntry>, kind: string) {
    forall id :: id in entries && TYPE in entries[id].metadata && entries[id].metadata[TYPE] == kind ==>
      HasDoc(docs, id)
  }

  /** The cross-store invariant: every text vector has a record in the text
      collection and every image vector one in the image collection. */
  predicate Consistent(textDocs: seq<Record>, imageDocs: seq<Record>, entries: map<string, IndexEntry>) {
    Backed(textDocs, entries, TEXT_KIND) && Backed(imageDocs, entries, IMAGE_KIND)
  }

  /** Each inserted record is found under its own id. */
  lemma RecordsCoverIds<T>(docs: seq<Record>, ids: seq<string>, items: seq<T>, content: T -> string, k: nat)
    requires |ids| == |items| && k < |ids|
    ensures HasDoc(docs + Records(ids, items, content), ids[k])
  {
    RecordsAt(ids, items, content, k);
    assert (docs + Records(ids, items, content))[|docs| + k] == ContentRecord(ids[k], content(items[k]));
  }

  /** The index after one ingestion call: the vectors upserted, or
      untouched when building them raised `IndexError`. */
  function IngestedIndex(entries: map<string, IndexEntry>, ids: seq<string>, summaries: seq<string>,
                         embed: string -> Embedding, kind: string): map<string, IndexEntry>
  {
    if |summaries| <= |ids| then UpsertAll(entries, Vectors(ids, summaries, embed, kind)) else entries
  }

  /** One ingestion call keeps the cross-store invariant, whatever the
      number of summaries: with at most as many summaries as items every
      upserted id has a record (the records go in first), and with more the
      index is untouched and records only grow. */
  lemma IngestionKeepsConsistent<T>(docs: seq<Record>, otherDocs: seq<Record>, entries: map<string, IndexEntry>,
                                    ids: seq<string>, items: seq<T>, content: T -> string,
                                    summaries: seq<string>, embed: string -> Embedding, kind: string, otherKind: string)
    requires |ids| == |items| && kind != otherKind
    requires Backed(docs, entries, kind) && Backed(otherDocs, entries, otherKind)
    ensures var entries' := IngestedIndex(entries, ids, summaries, embed, kind);
            Backed(docs + Records(ids, items, content), entries', kind) && Backed(otherDocs, entries', otherKind)
  {
    var docs' := docs + Records(ids, items, content);
    if |summaries| <= |items| {
      UpsertKeepsBacked(docs, otherDocs, entries, ids, items, content, summaries, embed, kind, otherKind);
    } else {
      forall id | id in entries && TYPE in entries[id].metadata && entries[id].metadata[TYPE] == kind
        ensures HasDoc(docs', id)
      {
        FindOneStable(docs, Records(ids, items, content), id);
      }
    }
  }

  /** The upsert half of `IngestionKeepsConsistent`. */
  lemma UpsertKeepsBacked<T>(docs: seq<Record>, otherDocs: seq<Record>, entries: map<string, IndexEntry>,
                             ids: seq<string>, items: seq<T>, content: T -> string,
                             summaries: seq<string>, embed: string -> Embedding, kind: string, otherKind: string)
    requires |ids| == |items| && |summaries| <= |items| && kind != otherKind
    requires Backed(docs, entries, kind) && Backed(otherDocs, entries, otherKind)
    ensures var entries' := UpsertAll(entries, Vectors(ids, summaries, embed, kind));
            Backed(docs + Records(ids, items, content), entries', kind) && Backed(otherDocs, entries', otherKind)
  {
    var vs := Vectors(ids, summaries, embed, kind);
    var entries' := UpsertAll(entries, vs);
    var docs' := docs + Records(ids, items, content);
    VectorsLength(ids, summaries, embed, kind);
    forall id | id in entries'
      ensures TYPE in entries'[id].metadata && entries'[id].metadata[TYPE] == kind ==> HasDoc(docs', id)
      ensures TYPE in entries'[id].metadata && entries'[id].metadata[TYPE] == otherKind ==> HasDoc(otherDocs, id)
    {
      UpsertAllSource(entries, vs, id);
      if exists k :: 0 <= k < |vs| && vs[k].id == id && entries'[id] == EntryOf(vs[k]) {
        var k :| 0 <= k < |vs| && vs[k].id == id && entries'[id] == EntryOf(vs[k]);
        VectorsAt(ids, summaries, embed, kind, k);
        RecordsCoverIds(docs, ids, items, content, k);
      } else {
        if HasDoc(docs, id) {
          FindOneStable(docs, Records(ids, items, content), id);
        }
      }
    }
  }

  /** `main` (vectordb_store.py:93-95): the text call, then, if it
      returned, the image call. Each call leaves every text vector backed
      by a text record and every image vector by an image record. */
  lemma MainKeepsConsistent(textDocs: seq<Record>, imageDocs: seq<Record>, entries: map<string, IndexEntry>,
                            texts: seq<Chunk>, textSummaries: seq<string>, textUuids: seq<string>,
                            images: seq<string>, imageSummaries: seq<string>, imageUuids: seq<string>,
                            embed: string -> Embedding)
    requires |textUuids| == |texts| && |imageUuids| == |images|
    requires Consistent(textDocs, imageDocs, entries)
    ensures var textIds, imageIds := DocIds(TEXT_PREFIX, textUuids), DocIds(IMAGE_PREFIX, imageUuids);
            var textDocs' := textDocs + Records(textIds, texts, TextContent);
            var entries' := IngestedIndex(entries, textIds, textSummaries, embed, TEXT_KIND);
            && Consistent(textDocs', imageDocs, entries')
            && (|textSummaries| <= |texts| ==>
                  Consistent(textDocs', imageDocs + Records(imageIds, images, ImageContent),
                             IngestedIndex(entries', imageIds, imageSummaries, embed, IMAGE_KIND)))
  {
    var textIds, imageIds := DocIds(TEXT_PREFIX, textUuids), DocIds(IMAGE_PREFIX, imageUuids);
    var textDocs' := textDocs + Records(textIds, texts, TextContent);
    var entries' := IngestedIndex(entries, textIds, textSummaries, embed, TEXT_KIND);
    IngestionKeepsConsistent(textDocs, imageDocs, entries, textIds, texts, TextContent,
                             textSummaries, embed, TEXT_KIND, IMAGE_KIND);
    IngestionKeepsConsistent(imageDocs, textDocs', entries', imageIds, images, ImageContent,
                             imageSummaries, embed, IMAGE_KIND, TEXT_KIND);
  }

  /** With distinct fresh ids, `find_one` on each id returns exactly the
      record inserted for it. */
  lemma FreshRecordsResolve<T>(docs: seq<Record>, ids: seq<string>, items: seq<T>, content: T -> string, k: nat)
    requires |ids| == |items| && k < |ids| && Distinct(ids)
    requires forall j :: 0 <= j < |ids| ==> !HasDoc(docs, ids[j])
    ensures FindOne(docs + Records(ids, items, content), ids[k]) == Some(ContentRecord(ids[k], content(items[k])))
  {
    var recs := Records(ids, items, content);
    RecordsAt(ids, items, content, k);
    assert !HasDoc(docs, ids[k]);
    FirstMatchConcat(docs, recs, ids[k]);
    forall j | 0 <= j < k ensures !Matches(recs[j], ids[k]) {
      RecordsAt(ids, items, content, j);
    }
    assert FirstMatch(recs, ids[k]) == k;
    assert (docs + recs)[|docs| + k] == recs[k];
  }

  /** With distinct ids, the index holds summary `k` under `ids[k]` for every
      summary, and leaves the ids past the last summary as they were: with
      fewer summaries than items, those records get no vector. */
  lemma {:induction false} IndexedSummaries(entries: map<string, IndexEntry>, ids: seq<string>, summaries: seq<string>,
                         embed: string -> Embedding, kind: string)
    requires |summaries| <= |ids| && Distinct(ids)
    ensures var entries' := UpsertAll(entries, Vectors(ids, summaries, embed, kind));
            && (forall k :: 0 <= k < |summaries| ==>
                  ids[k] in entries' && entries'[ids[k]] == IndexEntry(embed(summaries[k]), VectorMetadata(kind, summaries[k], ids[k])))
            && (forall k :: |summaries| <= k < |ids| ==>
                  (ids[k] in entries' <==> ids[k] in entries))
  {
    var vs := Vectors(ids, summaries, embed, kind);
    VectorsLength(ids, summaries, embed, kind);
    forall k | 0 <= k < |summaries|
      ensures ids[k] in UpsertAll(entries, vs)
      ensures UpsertAll(entries, vs)[ids[k]] == IndexEntry(embed(summaries[k]), VectorMetadata(kind, summaries[k], ids[k]))
    {
      VectorsAt(ids, summaries, embed, kind, k);
      forall j | k < j < |vs| ensures vs[j].id != vs[k].id {
        VectorsAt(ids, summaries, embed, kind, j);
      }
      UpsertAllLatest(entries, vs, k);
    }
    forall k | |summaries| <= k < |ids| ensures ids[k] in UpsertAll(entries, vs) <==> ids[k] in entries {
      forall j | 0 <= j < |vs| ensures vs[j].id != ids[k] {
        VectorsAt(ids, summaries, embed, kind, j);
      }
      UpsertAllUntouched(entries, vs, ids[k]);
    }
  }

  /** Ingestion writes only `doc_id` and `content`: no record it inserts has
      an `img_url` field. */
  lemma {:induction false} RecordsHaveNoImageUrl<T>(ids: seq<string>, items: seq<T>, content: T -> string)
    requires |ids| == |items|
    ensures forall d :: d in Records(ids, items, content) ==> d.Keys == {DOC_ID, CONTENT} && IMG_URL !in d
  {
    forall d | d in Records(ids, items, content) ensures d.Keys == {DOC_ID, CONTENT} {
      RecordsLength(ids, items, content);
      var k :| 0 <= k < |Records(ids, items, content)| && Records(ids, items, content)[k] == d;
      RecordsAt(ids, items, content, k);
    }
  }
}
