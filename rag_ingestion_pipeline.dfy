/** The answer pipeline's data shaping (rag_ingestion_pipeline.py): turning
    retrieved items into documents, splitting the documents into images and
    texts by whether their content base64-decodes, and assembling the
    multimodal prompt. The final generation call is left out. */
module RagPipeline {
  import opened Python
  import opened Seqs
  import opened GenAI
  import opened Base64
  import opened Stores
  import opened RagRetrieval

  /** `{"id": ..., "score": ..., "type": ..., "summary": ...}`. */
  datatype DocMetadata = DocMetadata(id: string, score: real, kind: string, summary: string)

  /** The `Document` dataclass. */
  datatype Document = Document(pageContent: Value, metadata: DocMetadata)

  /** What a `for` loop walks over: the keys of a dict, or a list of
      retrieved items. */
  datatype Iterable = DictKeys(keys: seq<string>) | ItemList(items: seq<Item>)

  /** `retrieve_chunks` returns a dict, so iterating it yields its two keys.
      The keys are the same whatever the dict holds, so `r` is not read. */
  function AsIterable(r: Retrieved): Iterable {
    DictKeys(["retrieved_data", "img_urls"])
  }

  /** Subscripting a `str` with a `str` key. */
  const STRING_INDEX_ERROR := TypeError("string indices must be integers, not 'str'")

  /** The document built from one retrieved item (rag_ingestion_pipeline.py:41-47). */
  function ToDocument(item: Item): Document {
    Document(item.content, DocMetadata(item.docId, item.score, item.kind, item.summary))
  }

  /** The loop of `retrieve_documents_as_docs` over what `retrieve_chunks`
      returned. Over a list of items it builds one document per item, in
      order; over a dict its first key is a `str`, and `doc["doc_id"]` on it
      raises `TypeError`. */
  method ConvertRetrieved(retrieved: Iterable) returns (r: Result<seq<Document>>)
    ensures retrieved.ItemList? ==> r == Ok(Map(retrieved.items, ToDocument))
    ensures retrieved.DictKeys? ==> r == if retrieved.keys == [] then Ok([]) else Err(STRING_INDEX_ERROR)
  {
    match retrieved
    case DictKeys(keys) =>
      if keys != [] {
        return Err(STRING_INDEX_ERROR);
      }
      return Ok([]);
    case ItemList(items) =>
      var docs := [];
      for i := 0 to |items|
        invariant docs == Map(items[..i], ToDocument)
      {
        assert items[..i + 1][..i] == items[..i];
        docs := docs + [ToDocument(items[i])];
      }
      assert items[..|items|] == items;
      return Ok(docs);
  }

  /** `retrieve_documents_as_docs(query)`: `retrieve_chunks` over the
      given matches, then the loop over its result. An exception of
      `retrieve_chunks` propagates; when it returns, the loop walks the
      dict's keys and raises `TypeError`, so no call returns documents. */
  method RetrieveDocumentsAsDocs(matches: seq<Match>, textCollection: Collection, imageCollection: Collection,
                                 fetch: string -> Result<string>) returns (r: Result<seq<Document>>)
    ensures var run := Run(matches, textCollection.docs, imageCollection.docs, fetch);
            && (run.Ok? ==> r == Err(STRING_INDEX_ERROR))
            && (run.Err? ==> r == Err(run.error))
  {
    var retrieved :- RetrieveChunks(matches, textCollection, imageCollection, fetch);
    r := ConvertRetrieved(AsIterable(retrieved));
  }

  /** Document `k` carries item `k`'s content as its page content and the
      item's id, score, type and summary as its metadata. */
  lemma DocumentsFromItems(items: seq<Item>, k: nat)
    requires k < |items|
    ensures |Map(items, ToDocument)| == |items|
    ensures var d := Map(items, ToDocument)[k];
            && d.pageContent == items[k].content
            && d.metadata == DocMetadata(items[k].docId, items[k].score, items[k].kind, items[k].summary)
  {
    MapAt(items, ToDocument, k);
  }

  /** `b64decode(doc.page_content)` returns: the content is a `str` that
      decodes. `None` raises `TypeError`. */
  predicate IsImageDoc(d: Document) {
    d.pageContent.Str? && Decodes(d.pageContent.s)
  }

  predicate IsTextDoc(d: Document) {
    !IsImageDoc(d)
  }

  function PageString(d: Document): string {
    if d.pageContent.Str? then d.pageContent.s else ""
  }

  /** `parse_docs`'s `b64` list: the page content of each decodable
      document, in order. */
  function DecodedImages(docs: seq<Document>): seq<string> {
    if docs == [] then []
    else
      var last := docs[|docs| - 1];
      DecodedImages(docs[..|docs| - 1]) + (if IsImageDoc(last) then [PageString(last)] else [])
  }

  /** `{"images": b64, "texts": text}`. */
  datatype Parsed = Parsed(images: seq<string>, texts: seq<Document>)

  /** `parse_docs(docs)`: each document goes to `images` (its page content)
      or to `texts` (the whole document), by whether decoding succeeds. */
  method ParseDocs(docs: seq<Document>) returns (parsed: Parsed)
    ensures parsed.images == DecodedImages(docs)
    ensures parsed.texts == Filter(docs, IsTextDoc)
  {
    var b64: seq<string> := [];
    var text: seq<Document> := [];
    for i := 0 to |docs|
      invariant b64 == DecodedImages(docs[..i])
      invariant text == Filter(docs[..i], IsTextDoc)
    {
      assert docs[..i + 1][..i] == docs[..i];
      if docs[i].pageContent.Str? && Decodes(docs[i].pageContent.s) {
        b64 := b64 + [docs[i].pageContent.s];
      } else {
        text := text + [docs[i]];
      }
    }
    assert docs[..|docs|] == docs;
    return Parsed(b64, text);
  }

  /** The images are the page contents of the decodable documents, in order;
      every document lands in exactly one of the two lists. */
  lemma {:induction false} PartitionIsExact(docs: seq<Document>)
    ensures DecodedImages(docs) == Map(Filter(docs, IsImageDoc), PageString)
    ensures |DecodedImages(docs)| + |Filter(docs, IsTextDoc)| == |docs|
  {
    if docs != [] {
      var init, last := docs[..|docs| - 1], docs[|docs| - 1];
      PartitionIsExact(init);
      assert docs == init + [last];
      FilterSnoc(init, last, IsImageDoc);
      FilterSnoc(init, last, IsTextDoc);
      if IsImageDoc(last) {
        MapSnoc(Filter(init, IsImageDoc), last, PageString);
      } else {
        assert Filter(docs, IsImageDoc) == Filter(init, IsImageDoc);
      }
    }
  }

  function PageContent(d: Document): Value {
    d.pageContent
  }

  /** The split looks only at page contents, never at the metadata's type:
      documents with the same contents split the same way, with the same
      images and texts of the same contents, in the same order. */
  lemma {:induction false} SplitIgnoresMetadata(docs: seq<Document>, docs': seq<Document>)
    requires |docs| == |docs'|
    requires forall k :: 0 <= k < |docs| ==> docs[k].pageContent == docs'[k].pageContent
    ensures DecodedImages(docs) == DecodedImages(docs')
    ensures Map(Filter(docs, IsTextDoc), PageContent) == Map(Filter(docs', IsTextDoc), PageContent)
    ensures |Filter(docs, IsTextDoc)| == |Filter(docs', IsTextDoc)|
  {
    if docs != [] {
      var n := |docs| - 1;
      var init, init', last, last' := docs[..n], docs'[..n], docs[n], docs'[n];
      SplitIgnoresMetadata(init, init');
      assert docs == init + [last] && docs' == init' + [last'];
      FilterSnoc(init, last, IsTextDoc);
      FilterSnoc(init', last', IsTextDoc);
      assert IsTextDoc(last) == IsTextDoc(last');
      if IsTextDoc(last) {
        MapSnoc(Filter(init, IsTextDoc), last, PageContent);
        MapSnoc(Filter(init', IsTextDoc), last', PageContent);
        assert PageContent(last) == PageContent(last');
      } else {
        assert Filter(docs, IsTextDoc) == Filter(init, IsTextDoc);
        assert Filter(docs', IsTextDoc) == Filter(init', IsTextDoc);
      }
    }
  }

  /** A text chunk whose content happens to decode, such as the caption
      "Figure 12", is taken for an image; a document whose content is
      `None` is kept as text. */
  lemma ContentAloneDecidesKind(md: DocMetadata)
    requires md.kind == TEXT_KIND
    ensures DecodedImages([Document(Str("Figure 12"), md)]) == ["Figure 12"]
    ensures DecodedImages([Document(Str(""), md)]) == [""]
    ensures Filter([Document(Null, md)], IsTextDoc) == [Document(Null, md)]
  {
    CaptionDecodes();
    assert [Document(Str("Figure 12"), md)][..0] == [];
    assert [Document(Str(""), md)][..0] == [];
    assert [Document(Null, md)][..0] == [];
  }

  const PROMPT_HEAD := "Answer the question based only on the following context, which can include text and images.\nContext:\n"
  const QUESTION_HEAD := "\nQuestion: "

  /** `text_doc.page_content + "\n"` with a `None` page content. */
  const NONE_CONCAT_ERROR := TypeError("unsupported operand type(s) for +: 'NoneType' and 'str'")

  predicate AllStr(texts: seq<Document>) {
    forall k :: 0 <= k < |texts| ==> texts[k].pageContent.Str?
  }

  /** `context_text`: each text document's page content followed by a
      newline, in order. */
  function ContextText(texts: seq<Document>): string
    requires AllStr(texts)
  {
    if texts == [] then ""
    else ContextText(texts[..|texts| - 1]) + texts[|texts| - 1].pageContent.s + "\n"
  }

  /** The context of a concatenation is the concatenation of the contexts. */
  lemma {:induction false} ContextTextConcat(a: seq<Document>, b: seq<Document>)
    requires AllStr(a) && AllStr(b)
    ensures AllStr(a + b)
    ensures ContextText(a + b) == ContextText(a) + ContextText(b)
  {
    assert forall k :: 0 <= k < |a + b| ==> (a + b)[k] == if k < |a| then a[k] else b[k - |a|];
    if b != [] {
      var init, last := b[..|b| - 1], b[|b| - 1];
      ContextTextConcat(a, init);
      assert (a + b)[..|a + b| - 1] == a + init;
      assert (a + b)[|a + b| - 1] == last;
    } else {
      assert a + b == a;
    }
  }

  /** The first part of the prompt. */
  function InstructionText(contextText: string, question: string): string {
    PROMPT_HEAD + contextText + QUESTION_HEAD + question
  }

  function ImagePart(imageB64: string): Part {
    InlineData(JPEG, imageB64)
  }

  /** `build_prompt({"context": context, "question": question})`: one
      instruction part holding the context and the question, then one
      inline JPEG part per image, in order. A text document with `None`
      content makes the `+=` raise `TypeError`. */
  method BuildPrompt(context: Parsed, question: string) returns (r: Result<seq<Part>>)
    ensures AllStr(context.texts) ==>
              && r.Ok?
              && |r.value| == 1 + |context.images|
              && r.value[0] == Text(InstructionText(ContextText(context.texts), question))
              && (forall k :: 0 <= k < |context.images| ==> r.value[k + 1] == ImagePart(context.images[k]))
    ensures !AllStr(context.texts) ==> r == Err(NONE_CONCAT_ERROR)
  {
    var contextText := "";
    for i := 0 to |context.texts|
      invariant AllStr(context.texts[..i])
      invariant contextText == ContextText(context.texts[..i])
    {
      var textDoc := context.texts[i];
      if textDoc.pageContent.Null? {
        return Err(NONE_CONCAT_ERROR);
      }
      assert context.texts[..i + 1][..i] == context.texts[..i];
      contextText := contextText + textDoc.pageContent.s + "\n";
    }
    assert context.texts[..|context.texts|] == context.texts;
    var promptParts := [Text(InstructionText(contextText, question))];
    for j := 0 to |context.images|
      invariant |promptParts| == 1 + j
      invariant promptParts[0] == Text(InstructionText(contextText, question))
      invariant forall k :: 0 <= k < j ==> promptParts[k + 1] == ImagePart(context.images[k])
    {
      promptParts := promptParts + [ImagePart(context.images[j])];
    }
    return Ok(promptParts);
  }

  /** `rag(query)` up to the generation call: retrieve, split, build the
      prompt. Whatever the stores hold it raises before any prompt is
      built: the exception of `retrieve_chunks`, or else `TypeError`. */
  method Rag(matches: seq<Match>, textCollection: Collection, imageCollection: Collection,
             fetch: string -> Result<string>, question: string) returns (r: Result<seq<Part>>)
    ensures var run := Run(matches, textCollection.docs, imageCollection.docs, fetch);
            && (run.Ok? ==> r == Err(STRING_INDEX_ERROR))
            && (run.Err? ==> r == Err(run.error))
  {
    var docs := RetrieveDocumentsAsDocs(matches, textCollection, imageCollection, fetch);
    match docs
    case Err(e) =>
      r := Err(e);
    case Ok(ds) =>
      var parsed := ParseDocs(ds);
      r := BuildPrompt(parsed, question);
  }

  /** With no texts the context is empty, so with no images either the
      prompt is the bare instruction and question. */
  lemma EmptyContextText(question: string)
    ensures ContextText([]) == ""
    ensures InstructionText(ContextText([]), question)
            == "Answer the question based only on the following context, which can include text and images.\nContext:\n\nQuestion: " + question
  {
  }
}
