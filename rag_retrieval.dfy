/** Assembly of the retrieval result (rag_retrieval.py): the loop over the
    index's matches that reads each match's metadata, looks the document up
    in the collection its type names, and collects one item per match and
    one image url per image match. The similarity query is left out; the
    matches are given. `fetch` stands for `fetch_image_base64`. */
module RagRetrieval {
  import opened Python
  import opened Seqs
  import opened Stores

  /** One element of `results["matches"]`: `match["score"]` and
      `match["metadata"]`. */
  datatype Match = Match(score: real, metadata: Metadata)

  /** One element of `retrieved_data`. */
  datatype Item = Item(kind: string, summary: string, docId: string, content: Value, score: real)

  /** `{"retrieved_data": ..., "img_urls": ...}`. */
  datatype Retrieved = Retrieved(retrievedData: seq<Item>, imgUrls: seq<Value>)

  /** The loop's variables: `content` (`None` until first assigned; reading
      it then raises `UnboundLocalError`), `retrieved_data` and `img_urls`. */
  datatype State = State(content: Option<Value>, items: seq<Item>, imgUrls: seq<Value>)

  const Initial := State(None, [], [])

  /** `chunk_doc["content"] if chunk_doc else None` for the text collection. */
  function TextLookup(textDocs: seq<Record>, docId: string): Result<Value> {
    match FindOne(textDocs, docId)
    case None => Ok(Null)
    case Some(d) => Subscript(d, CONTENT)
  }

  /** `chunk_doc["img_url"] if chunk_doc else None` for the image collection. */
  function UrlLookup(imageDocs: seq<Record>, docId: string): Result<Value> {
    match FindOne(imageDocs, docId)
    case None => Ok(Null)
    case Some(d) => Subscript(d, IMG_URL)
  }

  /** Whether the iteration for a match of this kind and id assigns
      `content`: a text match does, an image match does when the url read
      from its document is truthy, any other does not. */
  predicate Assigns(kind: string, docId: string, imageDocs: seq<Record>) {
    || kind == TEXT_KIND
    || (kind == IMAGE_KIND && UrlLookup(imageDocs, docId).Ok? && Truthy(UrlLookup(imageDocs, docId).value))
  }

  /** Whether reading this match raises nothing before `content` is read:
      the metadata has `doc_id`, `type` and `summary`; a text match's
      record, if any, has `content`; an image match's record, if any, has
      `img_url`, and a truthy url is fetched without error. */
  predicate Readable(m: Match, textDocs: seq<Record>, imageDocs: seq<Record>, fetch: string -> Result<string>) {
    var md := m.metadata;
    && DOC_ID in md && TYPE in md && SUMMARY in md
    && (md[TYPE] == TEXT_KIND ==> TextLookup(textDocs, md[DOC_ID]).Ok?)
    && (md[TYPE] == IMAGE_KIND ==>
          && UrlLookup(imageDocs, md[DOC_ID]).Ok?
          && (Truthy(UrlLookup(imageDocs, md[DOC_ID]).value) ==> fetch(UrlLookup(imageDocs, md[DOC_ID]).value.s).Ok?))
  }

  /** One iteration of the loop body (rag_retrieval.py:47-69). */
  function Step(st: State, m: Match, textDocs: seq<Record>, imageDocs: seq<Record>,
                fetch: string -> Result<string>): (r: Result<State>)
    ensures r.Ok? ==>
              && DOC_ID in m.metadata && TYPE in m.metadata && SUMMARY in m.metadata
              && r.value.content.Some?
              && r.value.items == st.items + [Item(m.metadata[TYPE], m.metadata[SUMMARY], m.metadata[DOC_ID],
                                                   r.value.content.value, m.score)]
              && st.imgUrls <= r.value.imgUrls
              && |r.value.imgUrls| == |st.imgUrls| + (if m.metadata[TYPE] == IMAGE_KIND then 1 else 0)
    ensures r.Ok? && m.metadata[TYPE] == TEXT_KIND ==>
              TextLookup(textDocs, m.metadata[DOC_ID]).Ok?
              && r.value.content == Some(TextLookup(textDocs, m.metadata[DOC_ID]).value)
    ensures r.Ok? && m.metadata[TYPE] == IMAGE_KIND ==>
              && UrlLookup(imageDocs, m.metadata[DOC_ID]).Ok?
              && var url := UrlLookup(imageDocs, m.metadata[DOC_ID]).value;
              && r.value.imgUrls == st.imgUrls + [url]
              && (Truthy(url) ==> fetch(url.s).Ok? && r.value.content == Some(Str(fetch(url.s).value)))
    ensures r.Ok? && !Assigns(m.metadata[TYPE], m.metadata[DOC_ID], imageDocs) ==>
              r.value.content == st.content
    ensures st.content.None? && DOC_ID in m.metadata && TYPE in m.metadata && SUMMARY in m.metadata
            && !Assigns(m.metadata[TYPE], m.metadata[DOC_ID], imageDocs)
            && (m.metadata[TYPE] == IMAGE_KIND ==> UrlLookup(imageDocs, m.metadata[DOC_ID]).Ok?) ==>
              r == Err(UnboundLocalError("content"))
  {
    var docId :- Subscript(m.metadata, DOC_ID);
    var kind :- Subscript(m.metadata, TYPE);
    var summary :- Subscript(m.metadata, SUMMARY);
    var url :- if kind == IMAGE_KIND then UrlLookup(imageDocs, docId) else Ok(Null);
    var content :-
      if kind == TEXT_KIND then
        var c :- TextLookup(textDocs, docId);
        Ok(Some(c))
      else if kind == IMAGE_KIND && Truthy(url) then
        var b :- fetch(url.s);
        Ok(Some(Str(b)))
      else Ok(st.content);
    if content.None? then Err(UnboundLocalError("content"))
    else
      Ok(State(content, st.items + [Item(kind, summary, docId, content.value, m.score)],
               if kind == IMAGE_KIND then st.imgUrls + [url] else st.imgUrls))
  }

  /** An iteration completes exactly when the match is readable and
      `content` is bound afterwards. A missing metadata key raises
      `KeyError`. An id with no record is not an error: a text match then
      records `None`, and an image match appends a `None` url and keeps
      `content`. */
  lemma StepCompletes(st: State, m: Match, textDocs: seq<Record>, imageDocs: seq<Record>,
                      fetch: string -> Result<string>)
    ensures var r := Step(st, m, textDocs, imageDocs, fetch);
            r.Ok? <==> Readable(m, textDocs, imageDocs, fetch)
                       && (st.content.Some? || Assigns(m.metadata[TYPE], m.metadata[DOC_ID], imageDocs))
    ensures var r := Step(st, m, textDocs, imageDocs, fetch);
            && (DOC_ID !in m.metadata ==> r == Err(KeyError(DOC_ID)))
            && (DOC_ID in m.metadata && TYPE !in m.metadata ==> r == Err(KeyError(TYPE)))
            && (DOC_ID in m.metadata && TYPE in m.metadata && SUMMARY !in m.metadata ==> r == Err(KeyError(SUMMARY)))
    ensures var r := Step(st, m, textDocs, imageDocs, fetch);
            DOC_ID in m.metadata && TYPE in m.metadata && SUMMARY in m.metadata
            && m.metadata[TYPE] == TEXT_KIND && !HasDoc(textDocs, m.metadata[DOC_ID]) ==>
              r.Ok? && r.value.content == Some(Null)
    ensures var r := Step(st, m, textDocs, imageDocs, fetch);
            DOC_ID in m.metadata && TYPE in m.metadata && SUMMARY in m.metadata
            && m.metadata[TYPE] == IMAGE_KIND && !HasDoc(imageDocs, m.metadata[DOC_ID]) && st.content.Some? ==>
              r.Ok? && r.value.imgUrls == st.imgUrls + [Null] && r.value.content == st.content
  {
  }

  /** The loop over the first matches, as a left fold of `Step`. */
  function Run(matches: seq<Match>, textDocs: seq<Record>, imageDocs: seq<Record>,
               fetch: string -> Result<string>): Result<State>
  {
    if matches == [] then Ok(Initial)
    else
      var st :- Run(matches[..|matches| - 1], textDocs, imageDocs, fetch);
      Step(st, matches[|matches| - 1], textDocs, imageDocs, fetch)
  }

  /** The function's result built from the final loop state. */
  function Output(run: Result<State>): Result<Retrieved> {
    match run
    case Ok(st) => Ok(Retrieved(st.items, st.imgUrls))
    case Err(e) => Err(e)
  }

  /** An exception in some iteration is the exception of the whole loop. */
  lemma {:induction false} RunFailurePersists(ms: seq<Match>, j: nat, textDocs: seq<Record>, imageDocs: seq<Record>,
                                              fetch: string -> Result<string>)
    requires j <= |ms| && Run(ms[..j], textDocs, imageDocs, fetch).Err?
    ensures Run(ms, textDocs, imageDocs, fetch) == Run(ms[..j], textDocs, imageDocs, fetch)
  {
    if j < |ms| {
      var init := ms[..|ms| - 1];
      assert init[..j] == ms[..j];
      RunFailurePersists(init, j, textDocs, imageDocs, fetch);
    } else {
      assert ms[..j] == ms;
    }
  }

  /** Iteration `i` runs on the state the first `i` iterations left. */
  lemma RunStep(ms: seq<Match>, i: nat, st: State, textDocs: seq<Record>, imageDocs: seq<Record>,
                fetch: string -> Result<string>)
    requires i < |ms| && Run(ms[..i], textDocs, imageDocs, fetch) == Ok(st)
    ensures Run(ms[..i + 1], textDocs, imageDocs, fetch) == Step(st, ms[i], textDocs, imageDocs, fetch)
    ensures Step(st, ms[i], textDocs, imageDocs, fetch).Err? ==>
              Run(ms, textDocs, imageDocs, fetch) == Step(st, ms[i], textDocs, imageDocs, fetch)
  {
    assert ms[..i + 1][..i] == ms[..i];
    if Step(st, ms[i], textDocs, imageDocs, fetch).Err? {
      RunFailurePersists(ms, i + 1, textDocs, imageDocs, fetch);
    }
  }

  /** `retrieve_chunks` past the query: reads both collections through
      `find_one` and writes neither. */
  method RetrieveChunks(matches: seq<Match>, textCollection: Collection, imageCollection: Collection,
                        fetch: string -> Result<string>) returns (r: Result<Retrieved>)
    ensures r == Output(Run(matches, textCollection.docs, imageCollection.docs, fetch))
  {
    ghost var textDocs, imageDocs := textCollection.docs, imageCollection.docs;
    var retrievedData: seq<Item> := [];
    var imgUrls: seq<Value> := [];
    var content: Option<Value> := None;
    for i := 0 to |matches|
      invariant Run(matches[..i], textDocs, imageDocs, fetch) == Ok(State(content, retrievedData, imgUrls))
    {
      ghost var st := State(content, retrievedData, imgUrls);
      RunStep(matches, i, st, textDocs, imageDocs, fetch);
      var metadata := matches[i].metadata;
      var docId :- Subscript(metadata, DOC_ID);
      var docType :- Subscript(metadata, TYPE);
      var summary :- Subscript(metadata, SUMMARY);
      var score := matches[i].score;
      if docType == TEXT_KIND {
        var chunkDoc := FindOne(textCollection.docs, docId);
        if chunkDoc.Some? {
          var c :- Subscript(chunkDoc.value, CONTENT);
          content := Some(c);
        } else {
          content := Some(Null);
        }
      } else if docType == IMAGE_KIND {
        var chunkDoc := FindOne(imageCollection.docs, docId);
        var imageUrl := Null;
        if chunkDoc.Some? {
          imageUrl :- Subscript(chunkDoc.value, IMG_URL);
        }
        imgUrls := imgUrls + [imageUrl];
        if Truthy(imageUrl) {
          var b :- fetch(imageUrl.s);
          content := Some(Str(b));
        }
      }
      if content.None? {
        return Err(UnboundLocalError("content"));
      }
      retrievedData := retrievedData + [Item(docType, summary, docId, content.value, score)];
    }
    assert matches[..|matches|] == matches;
    return Ok(Retrieved(retrievedData, imgUrls));
  }

  /** Does this match name an image document? */
  predicate IsImageMatch(m: Match) {
    TYPE in m.metadata && m.metadata[TYPE] == IMAGE_KIND
  }

  /** The url `img_urls` gets for an image match: the record's `img_url`,
      or `None` when no record has the match's id. */
  function UrlOf(imageDocs: seq<Record>): Match -> Value {
    (m: Match) => if DOC_ID in m.metadata && UrlLookup(imageDocs, m.metadata[DOC_ID]).Ok?
                  then UrlLookup(imageDocs, m.metadata[DOC_ID]).value
                  else Null
  }

  /** A completed loop gives one item per match, in match order, each
      copying type, summary and doc id from the match's metadata and its
      score, and one url per image match. */
  lemma {:induction false} RetrievedShape(ms: seq<Match>, textDocs: seq<Record>, imageDocs: seq<Record>,
                                          fetch: string -> Result<string>)
    requires Run(ms, textDocs, imageDocs, fetch).Ok?
    ensures var st := Run(ms, textDocs, imageDocs, fetch).value;
            && |st.items| == |ms|
            && (forall k :: 0 <= k < |ms| ==>
                  && DOC_ID in ms[k].metadata && TYPE in ms[k].metadata && SUMMARY in ms[k].metadata
                  && st.items[k].kind == ms[k].metadata[TYPE]
                  && st.items[k].summary == ms[k].metadata[SUMMARY]
                  && st.items[k].docId == ms[k].metadata[DOC_ID]
                  && st.items[k].score == ms[k].score)
            && |st.imgUrls| == |Filter(ms, IsImageMatch)|
            && (ms == [] <==> st.content.None?)
            && (ms != [] ==> st.content == Some(st.items[|ms| - 1].content))
  {
    if ms != [] {
      var init, last := ms[..|ms| - 1], ms[|ms| - 1];
      RetrievedShape(init, textDocs, imageDocs, fetch);
      assert ms == init + [last];
      FilterSnoc(init, last, IsImageMatch);
      var st := Run(init, textDocs, imageDocs, fetch).value;
      var st' := Run(ms, textDocs, imageDocs, fetch).value;
      assert forall k :: 0 <= k < |init| ==> st'.items[k] == st.items[k] && ms[k] == init[k];
    }
  }

  /** A completed loop's `img_urls` holds one url per image match, in match
      order: the record's `img_url`, or `None` when no record has the id. */
  lemma {:induction false} RetrievedUrls(ms: seq<Match>, textDocs: seq<Record>, imageDocs: seq<Record>,
                                         fetch: string -> Result<string>)
    requires Run(ms, textDocs, imageDocs, fetch).Ok?
    ensures Run(ms, textDocs, imageDocs, fetch).value.imgUrls == Map(Filter(ms, IsImageMatch), UrlOf(imageDocs))
  {
    if ms != [] {
      var init, last := ms[..|ms| - 1], ms[|ms| - 1];
      assert Run(init, textDocs, imageDocs, fetch).Ok?;
      RetrievedUrls(init, textDocs, imageDocs, fetch);
      var st := Run(init, textDocs, imageDocs, fetch).value;
      var st' := Step(st, last, textDocs, imageDocs, fetch).value;
      assert Run(ms, textDocs, imageDocs, fetch).value == st';
      assert ms == init + [last];
      FilterSnoc(init, last, IsImageMatch);
      var f := Filter(init, IsImageMatch);
      if IsImageMatch(last) {
        var url := UrlLookup(imageDocs, last.metadata[DOC_ID]).value;
        assert st'.imgUrls == st.imgUrls + [url];
        assert UrlOf(imageDocs)(last) == url;
        MapSnoc(f, last, UrlOf(imageDocs));
        assert Filter(ms, IsImageMatch) == f + [last];
        assert Map(f + [last], UrlOf(imageDocs)) == st.imgUrls + [url];
      } else {
        assert Filter(ms, IsImageMatch) == f;
        assert st'.imgUrls == st.imgUrls;
      }
    }
  }

  /** Whether the first match's iteration binds `content`. */
  predicate FirstAssigns(m: Match, imageDocs: seq<Record>) {
    DOC_ID in m.metadata && TYPE in m.metadata && Assigns(m.metadata[TYPE], m.metadata[DOC_ID], imageDocs)
  }

  /** The loop completes exactly when every match is readable and the first
      one binds `content`; after that `content` stays bound, so no later
      match can raise `UnboundLocalError`. */
  lemma {:induction false} RunSucceeds(ms: seq<Match>, textDocs: seq<Record>, imageDocs: seq<Record>,
                                       fetch: string -> Result<string>)
    ensures Run(ms, textDocs, imageDocs, fetch).Ok? <==>
              && (forall k :: 0 <= k < |ms| ==> Readable(ms[k], textDocs, imageDocs, fetch))
              && (ms != [] ==> FirstAssigns(ms[0], imageDocs))
  {
    if ms != [] {
      var init, last := ms[..|ms| - 1], ms[|ms| - 1];
      RunSucceeds(init, textDocs, imageDocs, fetch);
      assert forall k :: 0 <= k < |init| ==> ms[k] == init[k];
      if Run(init, textDocs, imageDocs, fetch).Ok? {
        RetrievedShape(init, textDocs, imageDocs, fetch);
        StepCompletes(Run(init, textDocs, imageDocs, fetch).value, last, textDocs, imageDocs, fetch);
        if init == [] {
          assert ms[0] == last;
        }
      } else {
        assert init != [];
      }
    }
  }

  /** A dangling reference is not an error: over text matches with full
      metadata, against records that all carry `content`, the call always
      completes, and a match whose id has no record gets `None` content. */
  lemma TextOnlyRetrievalCompletes(ms: seq<Match>, textDocs: seq<Record>, imageDocs: seq<Record>,
                                   fetch: string -> Result<string>)
    requires forall k :: 0 <= k < |ms| ==>
               var md := ms[k].metadata;
               DOC_ID in md && TYPE in md && SUMMARY in md && md[TYPE] == TEXT_KIND
    requires forall d :: d in textDocs ==> CONTENT in d
    ensures Run(ms, textDocs, imageDocs, fetch).Ok?
    ensures forall k :: 0 <= k < |ms| && !HasDoc(textDocs, ms[k].metadata[DOC_ID]) ==>
              |Run(ms, textDocs, imageDocs, fetch).value.items| == |ms|
              && Run(ms, textDocs, imageDocs, fetch).value.items[k].content == Null
  {
    forall k | 0 <= k < |ms| ensures Readable(ms[k], textDocs, imageDocs, fetch) {
      var id := ms[k].metadata[DOC_ID];
      if HasDoc(textDocs, id) {
        assert FindOne(textDocs, id).value in textDocs;
      }
    }
    RunSucceeds(ms, textDocs, imageDocs, fetch);
    forall k | 0 <= k < |ms| && !HasDoc(textDocs, ms[k].metadata[DOC_ID])
      ensures |Run(ms, textDocs, imageDocs, fetch).value.items| == |ms|
      ensures Run(ms, textDocs, imageDocs, fetch).value.items[k].content == Null
    {
      RetrievedContent(ms, k, textDocs, imageDocs, fetch);
    }
  }

  /** A completed loop's prefixes completed too, leaving a prefix of the
      final items. */
  lemma {:induction false} RunPrefix(ms: seq<Match>, j: nat, textDocs: seq<Record>, imageDocs: seq<Record>,
                                     fetch: string -> Result<string>)
    requires j <= |ms| && Run(ms, textDocs, imageDocs, fetch).Ok?
    ensures Run(ms[..j], textDocs, imageDocs, fetch).Ok?
    ensures Run(ms[..j], textDocs, imageDocs, fetch).value.items <= Run(ms, textDocs, imageDocs, fetch).value.items
  {
    if j < |ms| {
      var init := ms[..|ms| - 1];
      assert init[..j] == ms[..j];
      RunPrefix(init, j, textDocs, imageDocs, fetch);
    } else {
      assert ms[..j] == ms;
    }
  }

  /** The content recorded for match `k`: the looked-up or fetched value when
      the iteration assigns `content`; otherwise the content recorded for
      match `k - 1`, carried over. For a text match it is the stored
      `content`, or `None` when no record has that id. */
  lemma RetrievedContent(ms: seq<Match>, k: nat, textDocs: seq<Record>, imageDocs: seq<Record>,
                         fetch: string -> Result<string>)
    requires k < |ms| && Run(ms, textDocs, imageDocs, fetch).Ok?
    ensures var items := Run(ms, textDocs, imageDocs, fetch).value.items;
            var md := ms[k].metadata;
            && DOC_ID in md && TYPE in md && |items| == |ms|
            && (md[TYPE] == TEXT_KIND ==>
                  && TextLookup(textDocs, md[DOC_ID]).Ok?
                  && items[k].content == TextLookup(textDocs, md[DOC_ID]).value
                  && (!HasDoc(textDocs, md[DOC_ID]) ==> items[k].content == Null))
            && (md[TYPE] == IMAGE_KIND && UrlLookup(imageDocs, md[DOC_ID]).Ok? && Truthy(UrlLookup(imageDocs, md[DOC_ID]).value) ==>
                  var url := UrlLookup(imageDocs, md[DOC_ID]).value;
                  fetch(url.s).Ok? && items[k].content == Str(fetch(url.s).value))
            && (!Assigns(md[TYPE], md[DOC_ID], imageDocs) ==>
                  k > 0 && items[k].content == items[k - 1].content)
  {
    RetrievedShape(ms, textDocs, imageDocs, fetch);
    RunPrefix(ms, k, textDocs, imageDocs, fetch);
    RunPrefix(ms, k + 1, textDocs, imageDocs, fetch);
    var st := Run(ms[..k], textDocs, imageDocs, fetch).value;
    var st' := Run(ms[..k + 1], textDocs, imageDocs, fetch).value;
    RunStep(ms, k, st, textDocs, imageDocs, fetch);
    var items := Run(ms, textDocs, imageDocs, fetch).value.items;
    assert st'.items[k] == items[k];
    if k > 0 {
      RetrievedShape(ms[..k], textDocs, imageDocs, fetch);
      assert st.items[k - 1] == items[k - 1];
    } else {
      RetrievedShape(ms[..0], textDocs, imageDocs, fetch);
    }
  }

  /** If the first match's iteration does not assign `content`, reading it
      raises `UnboundLocalError`, whatever follows. */
  lemma FirstUnassignedRaises(ms: seq<Match>, textDocs: seq<Record>, imageDocs: seq<Record>,
                              fetch: string -> Result<string>)
    requires ms != []
    requires var md := ms[0].metadata;
             && DOC_ID in md && TYPE in md && SUMMARY in md
             && !Assigns(md[TYPE], md[DOC_ID], imageDocs)
             && (md[TYPE] == IMAGE_KIND ==> UrlLookup(imageDocs, md[DOC_ID]).Ok?)
    ensures Run(ms, textDocs, imageDocs, fetch) == Err(UnboundLocalError("content"))
  {
    RunStep(ms, 0, Initial, textDocs, imageDocs, fetch);
  }

  /** Ingestion never writes `img_url`: an image match whose document is
      found always raises `KeyError('img_url')`, so a completed loop found
      no image document and every url it collected is `None`. */
  lemma {:induction false} IngestedImagesAreUnreachable(ms: seq<Match>, textDocs: seq<Record>, imageDocs: seq<Record>,
                                     fetch: string -> Result<string>)
    requires forall d :: d in imageDocs ==> IMG_URL !in d
    requires Run(ms, textDocs, imageDocs, fetch).Ok?
    ensures forall k :: 0 <= k < |ms| && IsImageMatch(ms[k]) && DOC_ID in ms[k].metadata ==>
              !HasDoc(imageDocs, ms[k].metadata[DOC_ID])
    ensures forall u :: u in Run(ms, textDocs, imageDocs, fetch).value.imgUrls ==> u == Null
    decreases |ms|
  {
    if ms != [] {
      var init, last := ms[..|ms| - 1], ms[|ms| - 1];
      IngestedImagesAreUnreachable(init, textDocs, imageDocs, fetch);
      RetrievedShape(ms, textDocs, imageDocs, fetch);
      forall k | 0 <= k < |ms| && IsImageMatch(ms[k]) && DOC_ID in ms[k].metadata
        ensures !HasDoc(imageDocs, ms[k].metadata[DOC_ID])
      {
        if k < |init| {
          assert ms[k] == init[k];
        }
      }
    }
  }

  /** An image match whose record has no `img_url` raises
      `KeyError('img_url')` in its own iteration, whatever the state. */
  lemma ImageRecordWithoutUrlRaises(st: State, m: Match, textDocs: seq<Record>, imageDocs: seq<Record>,
                                    fetch: string -> Result<string>)
    requires DOC_ID in m.metadata && TYPE in m.metadata && SUMMARY in m.metadata
    requires m.metadata[TYPE] == IMAGE_KIND && HasDoc(imageDocs, m.metadata[DOC_ID])
    requires IMG_URL !in FindOne(imageDocs, m.metadata[DOC_ID]).value
    ensures Step(st, m, textDocs, imageDocs, fetch) == Err(KeyError(IMG_URL))
  {
  }

  /** With an image match whose document was ingested, the whole call
      raises; when the earlier matches completed, the exception is
      `KeyError('img_url')` from that match. */
  lemma {:induction false} IngestedImageRaises(ms: seq<Match>, k: nat, textDocs: seq<Record>, imageDocs: seq<Record>,
                            fetch: string -> Result<string>)
    requires forall d :: d in imageDocs ==> IMG_URL !in d
    requires k < |ms| && IsImageMatch(ms[k]) && DOC_ID in ms[k].metadata
    requires HasDoc(imageDocs, ms[k].metadata[DOC_ID])
    ensures Run(ms, textDocs, imageDocs, fetch).Err?
    ensures SUMMARY in ms[k].metadata && Run(ms[..k], textDocs, imageDocs, fetch).Ok? ==>
              Run(ms, textDocs, imageDocs, fetch) == Err(KeyError(IMG_URL))
  {
    if Run(ms, textDocs, imageDocs, fetch).Ok? {
      IngestedImagesAreUnreachable(ms, textDocs, imageDocs, fetch);
    }
    if SUMMARY in ms[k].metadata && Run(ms[..k], textDocs, imageDocs, fetch).Ok? {
      var st := Run(ms[..k], textDocs, imageDocs, fetch).value;
      ImageRecordWithoutUrlRaises(st, ms[k], textDocs, imageDocs, fetch);
      RunStep(ms, k, st, textDocs, imageDocs, fetch);
    }
  }
}
