# Vanila_RAG data-shaping core in Dafny

This project models the sequential core of a small retrieval-augmented
generation pipeline written in Python and proves properties of the model.
The pipeline ingests a PDF's chunks into two stores: a MongoDB collection
holding full content and a Pinecone index of summary embeddings. It then
answers questions by retrieving matches and assembling a multimodal prompt
for Gemini.

Each Python file becomes one Dafny module:

| module | Python file | what it models |
|---|---|---|
| `GetImages` | get_images.py, image_summaries.py | chunk classification by type name; image payload extraction |
| `Summaries` | text_summaries.py, image_summaries.py | fallback rules around one generation call; the JSON cache block |
| `Stores` | (the MongoDB and Pinecone clients) | a collection as documents in insertion order, with `find_one` as first match; an index as a map written by `upsert` |
| `VectorDbStore` | vectordb_store.py | `add_text_documents`, `add_image_documents` |
| `RagRetrieval` | rag_retrieval.py | the loop of `retrieve_chunks` over the matches |
| `RagPipeline` | rag_ingestion_pipeline.py | `retrieve_documents_as_docs`, `parse_docs`, `build_prompt`, and `rag` up to the generation call |

The helper modules are:
- `Python`: dict subscripts raising `KeyError`, `None`-or-`str` values and their truthiness, and a `Result` type for "returned or raised".
- `Strings`: the substring test, `join`, and `strip` with Python's whitespace set.
- `Seqs`: list comprehensions.
- `GenAI`: request parts and generation outcomes.
- `Base64`: when `b64decode` succeeds on a `str`, following CPython 3.11's non-strict `a2b_base64` scan.

Each loop in the Python is a Dafny method with a loop. It is proved equal to a specification function, and the lemmas are about that function. Objects the code mutates are classes:
- `Stores.Collection` and `Stores.VectorIndex` are the two stores.
- `Summaries.CacheFile` is a cache file, either present with a list or absent.

External calls become parameters:
- the Gemini call is `generate: Request -> Outcome`;
- the sentence embedder is `embed`;
- `fetch_image_base64` is `fetch: string -> Result<string>`;
- the uuid draws are `uuids`.

Proved behaviours of the code:
- **Summary counts are not checked.** Ingestion pairs summary `i` with id `i`, and nothing checks that the counts agree.
  - More summaries than items raise `IndexError` after all content records are written, with the index untouched.
  - Fewer summaries leave records without vectors (`VectorDbStore.IndexedSummaries`).
  - Because the summaries come from a cache that is never checked against the current chunks, either case can happen: a stored list can be shorter or longer than the chunk list (`Summaries.StaleCacheLengthMismatch`).
  - Either way every vector in the index keeps a content record behind it (`VectorDbStore.IngestionKeepsConsistent`, `VectorDbStore.MainKeepsConsistent`).
- **Ingested images can never be retrieved.** Retrieval reads an `img_url` field that ingestion never writes, so any image match whose record exists raises `KeyError('img_url')` in its own iteration (`RagRetrieval.ImageRecordWithoutUrlRaises`, `RagRetrieval.IngestedImageRaises`, `RagRetrieval.IngestedImagesAreUnreachable`, `VectorDbStore.RecordsHaveNoImageUrl`).
- **`content` carries over between matches.** It is assigned only on some branches of the retrieval loop. A match that does not assign it repeats the previous item's content, or raises `UnboundLocalError` when it is the first match (`RagRetrieval.RetrievedContent`, `RagRetrieval.FirstUnassignedRaises`).
- **Whenever `retrieve_chunks` returns, `rag` raises `TypeError`.** `retrieve_documents_as_docs` iterates the dict `retrieve_chunks` returns, so its first key is subscripted like a record. When `retrieve_chunks` itself raises, that exception propagates instead. Either way no prompt is built (`RagPipeline.RetrieveDocumentsAsDocs`, `RagPipeline.Rag`).
- **Kind is decided by decoding alone.** `parse_docs` decides by whether `b64decode` succeeds, so a text chunk that decodes, such as "Figure 12", is taken for an image (`RagPipeline.ContentAloneDecidesKind`).

Behaviours of the code that a reader might expect to be otherwise:
- A document id the content store does not know is not an error. The code gives `None` content for a text match, and a `None` url for an image match, which then keeps the previous `content` (`RagRetrieval.StepCompletes`, `RagRetrieval.TextOnlyRetrievalCompletes`). The call completes exactly when every match is readable and the first one binds `content` (`RagRetrieval.RunSucceeds`).
- Empty generated text gets a placeholder, but whitespace-only text does not: the code strips after the emptiness test, so it gives `""` (`Summaries.SummarizeText`).
- An ingestion call adds one vector per summary, not one per content record (`VectorDbStore.IndexedSummaries`).
- Re-ingestion is not idempotent. Every run draws fresh uuids, so every run adds new records; the model takes the draws as a parameter.

## Model

| member | source | states |
|---|---|---|
| Python.Subscript | rag_retrieval.py:47-50 | `d[key]` returns the value exactly when the key is present and raises `KeyError(key)` otherwise |
| Strings.Contains | get_images.py:25 | `sub in s` holds exactly when `sub` occurs in `s` at some position |
| Strings.Strip | text_summaries.py:31 | `strip()` returns a piece of the input with only whitespace cut off each side; its ends are not whitespace; it is empty exactly when the input is all whitespace |
| Base64.UnpaddedDecodes | rag_ingestion_pipeline.py:55 | an ASCII string without `=` decodes exactly when its count of base64 alphabet characters is a multiple of four, whatever other characters it holds |
| Base64.CanonicalDecodes | rag_retrieval.py:33 | standard `b64encode` output (whole groups, optionally ending with `==` or `=`) is accepted by `b64decode` |
| Base64.CaptionDecodes | rag_ingestion_pipeline.py:54-56 | the plain caption "Figure 12" is accepted by `b64decode` |
| Base64.ShortCaptionDoesNotDecode | rag_ingestion_pipeline.py:57-58 | "Table 2" is rejected by `b64decode` |
| GetImages.ClassifyChunks | get_images.py:21-29 | `tables` and `texts` are the in-order sub-sequences of the chunks whose type name contains "Table" and "CompositeElement"; a chunk is in each list exactly when it passes that test, so it can be in both or neither |
| GetImages.GetImagesBase64 | get_images.py:36-44 | (also the identical copy at image_summaries.py:42-50) when every composite chunk has `orig_elements`, the result is the payloads of the image elements of composite chunks, chunk by chunk; otherwise `AttributeError` |
| GetImages.AllImagesConcat | get_images.py:37-44 | extraction over a concatenation of chunk lists is the concatenation of the extractions, so order is kept |
| GetImages.NonCompositeContributesNothing | get_images.py:39 | a chunk that is not composite contributes no payload |
| GetImages.AllImagesLength | get_images.py:39-43 | the number of payloads is the sum, over composite chunks, of their image-element counts |
| GetImages.ElementImagesOf | get_images.py:41-43 | the inner loop collects the payloads of a chunk's image elements, in element order |
| GetImages.ElementImagesLength | get_images.py:41-43 | one payload per image element of a chunk |
| GetImages.ElementImagesMembership | get_images.py:41-43 | a payload is taken from a chunk's elements exactly when some image element carries it |
| GetImages.AllImagesMembership | get_images.py:38-44 | a payload is extracted exactly when some image element of some composite chunk carries it |
| Summaries.TextPromptDeterminesChunkText | text_summaries.py:15-27 | the prompt is the template with the chunk's string form in place of `{element}`: equal prompts mean equal chunk strings |
| Summaries.SummarizeText | text_summaries.py:26-33 | non-whitespace response text is returned stripped, with non-whitespace ends; whitespace-only text gives `""`; no response or empty text gives "No summary available."; an exception gives "Error during generation: " and its message |
| Summaries.SummarizeBase64Image | image_summaries.py:28-40 | the same rules for the request of prompt plus JPEG inline data, with "No description available." and "Error processing image: " |
| Summaries.CacheFile.LoadOrCompute | text_summaries.py:44-51 | (also the image block at image_summaries.py:54-61) a present cache file is returned as it is and left unchanged; an absent one is computed, one summary per item, and written |
| Summaries.TextSummaries | text_summaries.py:42-51 | the text cache block over the full chunk list with `summarize_text` |
| Summaries.ImageSummaries | image_summaries.py:52-61 | the image cache block over the extracted payloads with `summarize_base64_image` |
| Summaries.FreshRunSummarizesEachItem | text_summaries.py:48-51 | without a cache there is one summary per item, the summary of that item, in order, and it is what gets stored |
| Summaries.SecondRunRepeatsFirst | image_summaries.py:55-61 | a run after any run returns the same list, whatever the items and summarizer are then |
| Summaries.StaleCacheLengthMismatch | text_summaries.py:45-47 | a stored list is returned without regard to the items, so it can be shorter or longer than the chunk list |
| Stores.FirstMatch | rag_retrieval.py:52 | the position of the first document whose `doc_id` is the id, or the count of documents when none is |
| Stores.FindOne | rag_retrieval.py:52-55 | `find_one({"doc_id": id})` is `None` exactly when no document matches, and otherwise a stored matching document |
| Stores.FirstMatchConcat | rag_retrieval.py:52 | the first match in a concatenation is the front part's first match if it has one, and the back part's otherwise |
| Stores.FindOneStable | vectordb_store.py:54 | inserting documents never changes what an id that already resolved resolves to |
| Stores.Collection.InsertOne | vectordb_store.py:54 | `insert_one` appends the document after all existing ones and changes nothing else |
| Stores.VectorIndex.Upsert | vectordb_store.py:67 | `upsert` writes or replaces each vector's entry in order and records the call's batch |
| Stores.UpsertAllConcat | vectordb_store.py:66-67 | upserting two batches in turn equals upserting their concatenation |
| Stores.UpsertAllSource | vectordb_store.py:67 | after an upsert each id holds the entry of some vector of the batch with that id, or its earlier entry |
| Stores.UpsertAllLatest | vectordb_store.py:67 | a vector whose id no later vector repeats is what the index holds under that id |
| Stores.UpsertAllUntouched | vectordb_store.py:67 | an id no vector of the batch carries keeps its entry or its absence |
| VectorDbStore.DocIds | vectordb_store.py:43 | one id per item, each the prefix followed by that item's uuid |
| VectorDbStore.DocIdsDistinct | vectordb_store.py:72 | distinct uuid draws give distinct ids |
| VectorDbStore.TextAndImageIdsDisjoint | vectordb_store.py:43 | a "text_" id never equals an "image_" id in the shared index |
| VectorDbStore.ElementTextsAreNonEmptyTexts | vectordb_store.py:47-50 | the strings joined are the non-empty `.text` values of the elements that have one, in order; none of them is empty |
| VectorDbStore.TextContent | vectordb_store.py:46-53 | with elements, of which one has text, the content is the space-join of their texts and is not empty; with elements none of which has text, or without `orig_elements`, it is `str(text)` |
| VectorDbStore.RecordsAt | vectordb_store.py:45-54 | record `k` written is `{doc_id: ids[k], content: content(items[k])}`, one per item |
| VectorDbStore.InsertContents | vectordb_store.py:45-54 | (also the image loop at vectordb_store.py:74-76) the collection gains exactly one record per chunk, in order, after the existing documents, which are unchanged |
| VectorDbStore.VectorsAt | vectordb_store.py:58-63 | there is one vector per summary, and vector `k` has id `ids[k]`, the embedding of summary `k`, and exactly the metadata `type`, `summary` (summary `k`) and `doc_id` (`ids[k]`) |
| VectorDbStore.BuildVectors | vectordb_store.py:56-63 | with at most as many summaries as ids the vectors are built; with more, reading `doc_ids[i]` raises `IndexError` |
| VectorDbStore.SlicesFlatten | vectordb_store.py:65-67 | the slices sent to `upsert`, concatenated, are the vectors in order |
| VectorDbStore.SlicesSizes | vectordb_store.py:65-67 | every slice is non-empty and at most the batch size, and all but the last are exactly the batch size |
| VectorDbStore.SlicesCount | vectordb_store.py:65-67 | with batch size 100 there are ceil(n / 100) upsert calls |
| VectorDbStore.SlicesOf250 | vectordb_store.py:65-67 | 250 vectors go up as 100, 100 and 50 |
| VectorDbStore.UpsertInSlices | vectordb_store.py:65-67 | the index ends as after upserting all vectors in order, through one call per slice |
| VectorDbStore.AddTextDocuments | vectordb_store.py:42-69 | all content records are written first; then with at most as many summaries as texts the ids are returned and the vectors upserted in slices, and with more `IndexError` is raised with the index unchanged |
| VectorDbStore.AddImageDocuments | vectordb_store.py:71-91 | the same for images, with "image_" ids and `str(img)` as content |
| VectorDbStore.RecordsCoverIds | vectordb_store.py:54 | every id written has a record that `find_one` finds |
| VectorDbStore.IngestionKeepsConsistent | vectordb_store.py:45-67 | whatever the number of summaries, every index entry of each kind still has a content record in its collection after one ingestion call: with at most as many summaries as items the upserted ids all have records, which go in first; with more the index is unchanged and the records only grow |
| VectorDbStore.UpsertKeepsBacked | vectordb_store.py:54-67 | upserting the vectors of at most as many summaries as items, after their records, leaves every entry of both kinds backed by a record |
| VectorDbStore.MainKeepsConsistent | vectordb_store.py:93-95 | after the text call, and after the image call when the text call returned, every text vector has a text record and every image vector an image record |
| VectorDbStore.FreshRecordsResolve | vectordb_store.py:54 | with distinct fresh ids, `find_one` on each id returns exactly the record inserted for it |
| VectorDbStore.IndexedSummaries | vectordb_store.py:56-67 | with distinct ids the index holds summary `k`'s vector under `ids[k]`, and ids past the last summary get no vector |
| VectorDbStore.RecordsHaveNoImageUrl | vectordb_store.py:76 | the records ingestion writes have exactly the fields `doc_id` and `content`, never `img_url` |
| RagRetrieval.Step | rag_retrieval.py:47-69 | after one iteration, the new item copies type, summary, doc id and score; text content is the looked-up `content` or `None`; an image match appends its url and fetches when the url is truthy; other matches carry `content` over, or raise `UnboundLocalError` while it is unbound |
| RagRetrieval.StepCompletes | rag_retrieval.py:47-61 | an iteration completes exactly when the metadata has its three keys, the text record (if any) has `content`, the image record (if any) has `img_url`, a truthy url is fetched, and `content` is bound afterwards; a missing metadata key raises `KeyError` for that key; a text id with no record gives `None` content, and an image id with no record appends a `None` url and keeps `content` |
| RagRetrieval.RunFailurePersists | rag_retrieval.py:46-69 | an exception in some iteration is the exception of the whole call |
| RagRetrieval.RunStep | rag_retrieval.py:46-69 | iteration `i` runs on the state the earlier iterations left, and its exception is the call's |
| RagRetrieval.RetrieveChunks | rag_retrieval.py:36-70 | the loop computes the fold of the iteration over the matches, returning `{retrieved_data, img_urls}` or the first exception, and writes neither collection |
| RagRetrieval.RetrievedShape | rag_retrieval.py:44-70 | one item per match in match order, copying the metadata's type, summary and doc id and the score, and one url per image match |
| RagRetrieval.RetrievedUrls | rag_retrieval.py:54-57 | a completed call's `img_urls` lists, for each image match in match order, its record's `img_url`, or `None` when no record has the id |
| RagRetrieval.RunSucceeds | rag_retrieval.py:46-69 | the call completes exactly when every match is readable and the first match binds `content` |
| RagRetrieval.TextOnlyRetrievalCompletes | rag_retrieval.py:51-53 | over text matches with full metadata and records that all have `content`, the call completes, and a match with no record gets `None` content |
| RagRetrieval.RunPrefix | rag_retrieval.py:46-69 | a completed loop's earlier iterations completed, leaving a prefix of the items |
| RagRetrieval.RetrievedContent | rag_retrieval.py:51-61 | a text item's content is the stored `content`, or `None` with no record; an image item with a truthy url holds the fetched payload; an item whose iteration does not assign `content` repeats the previous item's |
| RagRetrieval.FirstUnassignedRaises | rag_retrieval.py:58-67 | when the first match does not assign `content`, the call raises `UnboundLocalError` |
| RagRetrieval.IngestedImagesAreUnreachable | rag_retrieval.py:54-57 | over records without `img_url`, a completed call found no image record, and every url it collected is `None` |
| RagRetrieval.ImageRecordWithoutUrlRaises | rag_retrieval.py:54-56 | the iteration for an image match whose record has no `img_url` raises `KeyError('img_url')`, whatever the loop state |
| RagRetrieval.IngestedImageRaises | rag_retrieval.py:55-56 | an image match whose record exists but lacks `img_url` makes the call raise; when the earlier matches completed, the exception is `KeyError('img_url')` |
| RagPipeline.ConvertRetrieved | rag_ingestion_pipeline.py:39-48 | over a list of items there is one document per item, in order; over the dict `retrieve_chunks` returns, `doc["doc_id"]` on a key raises `TypeError` |
| RagPipeline.RetrieveDocumentsAsDocs | rag_ingestion_pipeline.py:37-48 | an exception of `retrieve_chunks` propagates; when it returns, iterating its dict raises `TypeError`, so no call returns documents |
| RagPipeline.DocumentsFromItems | rag_ingestion_pipeline.py:40-47 | document `k` has item `k`'s content as page content and its id, score, type and summary as metadata |
| RagPipeline.ParseDocs | rag_ingestion_pipeline.py:50-59 | `images` is the decodable documents' page contents and `texts` the other documents, each in order |
| RagPipeline.PartitionIsExact | rag_ingestion_pipeline.py:53-59 | every document lands in exactly one of the two lists, and images are the page contents of exactly the decodable ones |
| RagPipeline.SplitIgnoresMetadata | rag_ingestion_pipeline.py:54-58 | documents with the same page contents split the same way whatever their metadata: the same images, and texts with the same contents in the same order |
| RagPipeline.ContentAloneDecidesKind | rag_ingestion_pipeline.py:54-58 | a text document whose content decodes ("Figure 12", or the empty string) is taken for an image; a `None` content stays a text |
| RagPipeline.ContextTextConcat | rag_ingestion_pipeline.py:65-67 | the context of two groups of texts is the concatenation of their contexts, each content followed by a newline |
| RagPipeline.BuildPrompt | rag_ingestion_pipeline.py:61-81 | one instruction part with the context and the question, then one JPEG inline part per image in order, for `1 + len(images)` parts; a text with `None` content raises `TypeError` |
| RagPipeline.Rag | rag_ingestion_pipeline.py:83-86 | `rag` raises before a prompt is built: the exception of `retrieve_chunks`, or else `TypeError` |
| RagPipeline.EmptyContextText | rag_ingestion_pipeline.py:65-71 | with no texts the context is empty, and the instruction is the fixed header followed by the question |

## Left out

- Chunking (chunking.py): partitioning the PDF and its pickle cache. The chunk sequence is an input.
- rag_streamlit.py: user interface and event-loop plumbing.
- The interior of `fetch_image_base64` (rag_retrieval.py:30-33): an HTTP request and base64 encoding. It is the parameter `fetch`, any of whose results may be an exception.
- The embedder and similarity ranking. The embedding step is the opaque parameter `embed`, and `index.query` is the given sequence of matches. So top-k selection, cosine ranking and tie order are not modelled, and neither is the 384-dimension agreement.
- The generation calls and the `rag` / `rag_with_sources` bodies past `build_prompt`. Generation is a pure function from request to outcome; the model cannot express that Gemini is nondeterministic. That a present cache makes no generation call shows only as the result not depending on the summarizer (`Summaries.SecondRunRepeatsFirst`).
- uuid generation: the draws are a parameter. Distinctness, and freshness against existing records, are hypotheses of the lemmas that need them, not of the operations.
- `create_index`, client setup, `.env` loading, the asyncio loops and the `main` functions: remote configuration and plumbing. The two ingestion calls of `main` are the two methods run in turn.
- Async execution and interleaving: each `await` is a step of a sequential method.
- `display_base64_image` (get_images.py:57-64): image display with PIL, OpenCV and matplotlib.
- MongoDB's `_id` field and other document fields: a matching document is always non-empty, so its truthiness is not modelled separately.
- Reading and writing the JSON file: a cache file's contents are an optional list of strings, without encoding.
- Python's attribute protocol is reduced to optional fields. A chunk whose `orig_elements` is absent is `None`. `hasattr` then fails in `add_text_documents`, and `get_images_base64` raises `AttributeError`. Elements without `.text` have `None`.
- Pinecone's backend limits on a batch's size and byte count are not modelled; the code's slice of 100 is.
- `b64decode` is modelled as succeeding or failing on a `str`; the bytes it decodes to are not modelled.
- Scores and embedding values are `real` numbers, not floats.
- Stores.Collection.InsertOne, Stores.VectorIndex.Upsert, VectorDbStore.InsertContents, VectorDbStore.UpsertInSlices, VectorDbStore.AddTextDocuments, VectorDbStore.AddImageDocuments: store writes always succeed in the model. In the code an `insert_one` or a later `upsert` can raise on a network or server error (vectordb_store.py:54, 67). That leaves the written records without vectors, or only some of the slices upserted, and that partial state is not modelled.
