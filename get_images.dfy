/** Chunk classification and image extraction over the partitioner's chunk
    sequence (get_images.py; image_summaries.py holds an identical copy of
    `get_images_base64`). Chunk kinds are told apart the way the source does
    it: by a substring test on the chunk's class name, `str(type(chunk))`. */
module GetImages {
  import opened Python
  import opened Strings
  import opened Seqs

  /** An element the partitioner grouped into a chunk: its class name, its
      `.text` (`None` when absent), and `metadata.image_base64`, which the
      partitioner fills for image elements. */
  datatype Element = Element(typeName: string, text: Option<string>, imageBase64: string)

  /** A chunk: its class name, `str(chunk)`, and `metadata.orig_elements`
      (`None` when the chunk has no such attribute). */
  datatype Chunk = Chunk(typeName: string, asString: string, origElements: Option<seq<Element>>)

  const TABLE := "Table"
  const COMPOSITE := "CompositeElement"
  const IMAGE := "Image"

  /** `name in str(type(chunk))`. */
  function OfType(name: string): Chunk -> bool {
    (c: Chunk) => Contains(c.typeName, name)
  }

  predicate IsImageElement(e: Element) {
    Contains(e.typeName, IMAGE)
  }

  /** `[el.metadata.image_base64 for el in els if "Image" in str(type(el))]`. */
  function ElementImages(els: seq<Element>): seq<string> {
    if els == [] then []
    else
      var last := els[|els| - 1];
      ElementImages(els[..|els| - 1]) + (if IsImageElement(last) then [last.imageBase64] else [])
  }

  /** The module-level loop of get_images.py: two independent tests, so a chunk
      lands in `tables`, in `texts`, in both or in neither. Each list is the
      in-order sub-sequence of the chunks that pass its test. */
  method ClassifyChunks(chunks: seq<Chunk>) returns (tables: seq<Chunk>, texts: seq<Chunk>)
    ensures tables == Filter(chunks, OfType(TABLE))
    ensures texts == Filter(chunks, OfType(COMPOSITE))
    ensures forall c :: c in tables <==> c in chunks && Contains(c.typeName, TABLE)
    ensures forall c :: c in texts <==> c in chunks && Contains(c.typeName, COMPOSITE)
  {
    tables, texts := [], [];
    for i := 0 to |chunks|
      invariant tables == Filter(chunks[..i], OfType(TABLE))
      invariant texts == Filter(chunks[..i], OfType(COMPOSITE))
    {
      assert chunks[..i + 1][..i] == chunks[..i];
      if Contains(chunks[i].typeName, TABLE) {
        tables := tables + [chunks[i]];
      }
      if Contains(chunks[i].typeName, COMPOSITE) {
        texts := texts + [chunks[i]];
      }
    }
    assert chunks[..|chunks|] == chunks;
    forall c ensures c in tables <==> c in chunks && Contains(c.typeName, TABLE) {
      FilterMembership(chunks, OfType(TABLE), c);
    }
    forall c ensures c in texts <==> c in chunks && Contains(c.typeName, COMPOSITE) {
      FilterMembership(chunks, OfType(COMPOSITE), c);
    }
  }

  /** Whether `get_images_base64` can read `orig_elements` of every composite
      chunk; a composite chunk without it raises `AttributeError`. */
  predicate Extractable(chunks: seq<Chunk>) {
    forall k :: 0 <= k < |chunks| && OfType(COMPOSITE)(chunks[k]) ==> chunks[k].origElements.Some?
  }

  /** The payloads one chunk contributes: those of its image elements if it
      is composite, nothing otherwise. */
  function ChunkImages(c: Chunk): seq<string> {
    if OfType(COMPOSITE)(c) && c.origElements.Some? then
      ElementImages(c.origElements.value)
    else []
  }

  /** The payloads of all chunks, chunk by chunk in order. */
  function AllImages(chunks: seq<Chunk>): seq<string> {
    if chunks == [] then [] else AllImages(chunks[..|chunks| - 1]) + ChunkImages(chunks[|chunks| - 1])
  }

  lemma AllImagesSnoc(chunks: seq<Chunk>, c: Chunk)
    ensures AllImages(chunks + [c]) == AllImages(chunks) + ChunkImages(c)
  {
    assert (chunks + [c])[..|chunks|] == chunks;
  }

  /** The inner loop of `get_images_base64` over one chunk's elements: the
      payloads of its image elements, in order. */
  method ElementImagesOf(els: seq<Element>) returns (imgs: seq<string>)
    ensures imgs == ElementImages(els)
  {
    imgs := [];
    for j := 0 to |els|
      invariant imgs == ElementImages(els[..j])
    {
      assert els[..j + 1][..j] == els[..j];
      if Contains(els[j].typeName, IMAGE) {
        imgs := imgs + [els[j].imageBase64];
      }
    }
    assert els[..|els|] == els;
  }

  /** `get_images_base64(chunks)`: the nested loop over composite chunks and
      their image elements. */
  method GetImagesBase64(chunks: seq<Chunk>) returns (r: Result<seq<string>>)
    ensures Extractable(chunks) ==> r == Ok(AllImages(chunks))
    ensures !Extractable(chunks) ==> r == Err(AttributeError("orig_elements"))
  {
    var imagesB64 := [];
    for i := 0 to |chunks|
      invariant Extractable(chunks[..i])
      invariant imagesB64 == AllImages(chunks[..i])
    {
      assert chunks[..i + 1] == chunks[..i] + [chunks[i]];
      AllImagesSnoc(chunks[..i], chunks[i]);
      if Contains(chunks[i].typeName, COMPOSITE) {
        if chunks[i].origElements.None? {
          assert !Extractable(chunks) by {
            assert OfType(COMPOSITE)(chunks[i]);
          }
          return Err(AttributeError("orig_elements"));
        }
        var chunkImages := ElementImagesOf(chunks[i].origElements.value);
        imagesB64 := imagesB64 + chunkImages;
      }
    }
    assert chunks[..|chunks|] == chunks;
    return Ok(imagesB64);
  }

  /** The extracted payloads of a concatenation are those of each part, in
      order. */
  lemma {:induction false} AllImagesConcat(a: seq<Chunk>, b: seq<Chunk>)
    ensures AllImages(a + b) == AllImages(a) + AllImages(b)
  {
    if b == [] {
      assert a + b == a;
    } else {
      var init, last := b[..|b| - 1], b[|b| - 1];
      AllImagesConcat(a, init);
      assert (a + b)[..|a + b| - 1] == a + init;
      assert (a + b)[|a + b| - 1] == last;
      assert AllImages(a + b) == AllImages(a + init) + ChunkImages(last);
      assert AllImages(b) == AllImages(init) + ChunkImages(last);
    }
  }

  /** A chunk that is not composite contributes nothing. */
  lemma NonCompositeContributesNothing(c: Chunk)
    requires !Contains(c.typeName, COMPOSITE)
    ensures AllImages([c]) == []
  {
    AllImagesSnoc([], c);
  }

  /** The number of image elements inside one composite chunk. */
  function ImageCount(c: Chunk): nat {
    if OfType(COMPOSITE)(c) && c.origElements.Some? then
      |Filter(c.origElements.value, IsImageElement)|
    else 0
  }

  function TotalImageCount(chunks: seq<Chunk>): nat {
    if chunks == [] then 0 else TotalImageCount(chunks[..|chunks| - 1]) + ImageCount(chunks[|chunks| - 1])
  }

  /** One payload per image element of a composite chunk. */
  lemma {:induction false} AllImagesLength(chunks: seq<Chunk>)
    ensures |AllImages(chunks)| == TotalImageCount(chunks)
  {
    if chunks != [] {
      var init := chunks[..|chunks| - 1];
      var last := chunks[|chunks| - 1];
      AllImagesLength(init);
      assert chunks == init + [last];
      if OfType(COMPOSITE)(last) && last.origElements.Some? {
        ElementImagesLength(last.origElements.value);
      }
    }
  }

  lemma {:induction false} ElementImagesLength(els: seq<Element>)
    ensures |ElementImages(els)| == |Filter(els, IsImageElement)|
  {
    if els != [] {
      ElementImagesLength(els[..|els| - 1]);
    }
  }

  /** A payload is taken from the elements exactly when some image element
      carries it. */
  lemma {:induction false} ElementImagesMembership(els: seq<Element>, x: string)
    ensures x in ElementImages(els) <==> exists e :: e in els && IsImageElement(e) && e.imageBase64 == x
  {
    if els != [] {
      var init, last := els[..|els| - 1], els[|els| - 1];
      ElementImagesMembership(init, x);
      assert els == init + [last];
    }
  }

  /** A payload is extracted exactly when some image element of some
      composite chunk carries it. */
  lemma {:induction false} AllImagesMembership(chunks: seq<Chunk>, x: string)
    ensures x in AllImages(chunks) <==>
      exists k, e :: 0 <= k < |chunks| && OfType(COMPOSITE)(chunks[k]) && chunks[k].origElements.Some?
                     && e in chunks[k].origElements.value && IsImageElement(e) && e.imageBase64 == x
  {
    if chunks != [] {
      var init := chunks[..|chunks| - 1];
      var last := chunks[|chunks| - 1];
      AllImagesMembership(init, x);
      assert chunks == init + [last];
      if OfType(COMPOSITE)(last) && last.origElements.Some? {
        ElementImagesMembership(last.origElements.value, x);
      }
      forall k, e | 0 <= k < |chunks| && OfType(COMPOSITE)(chunks[k]) && chunks[k].origElements.Some?
                    && e in chunks[k].origElements.value && IsImageElement(e) && e.imageBase64 == x
        ensures x in AllImages(chunks)
      {
        if k < |init| { assert chunks[k] == init[k]; }
      }
    }
  }
}
