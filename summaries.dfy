/** Chunk and image summarization (text_summaries.py, image_summaries.py):
    the fallback logic around one generation call, and the block that reads
    the summaries from a JSON cache file or computes and writes them. The
    generation call is the parameter `generate`. */
module Summaries {
  import opened Python
  import opened Strings
  import opened Seqs
  import opened GenAI
  import opened GetImages

  /** text_summaries.py's `prompt_template`, split at its one `{element}` field. */
  const TEXT_PROMPT_HEAD := "\nYou are an assistant tasked with summarizing tables and text.\nGive a concise summary of the table or text.\n\nRespond only with the summary, no additional comment.\nDo not start your message by saying \"Here is a summary\" or anything like that.\nJust give the summary as it is.\n\nTable or text chunk: "
  const TEXT_PROMPT_TAIL := "\n"

  /** image_summaries.py's `prompt_template`. */
  const IMAGE_PROMPT := "\nYou are an AI assistant analyzing research paper images.\nDescribe the image in detail, focusing on graphs, bar plots, and structural elements.\n\n- Identify the type of graph (bar, line, pie, etc.).\n- Mention key labels, trends, and data points.\n- If text is present, summarize it.\n- Provide a structured explanation.\n\nAvoid unnecessary commentary and provide a concise yet informative summary.\n"

  const NO_SUMMARY := "No summary available."
  const NO_DESCRIPTION := "No description available."
  const GENERATION_ERROR := "Error during generation: "
  const IMAGE_ERROR := "Error processing image: "

  /** `prompt_template.format(element=text_chunk)`: the chunk's string form
      in place of `{element}`. */
  function TextPrompt(chunk: Chunk): string {
    TEXT_PROMPT_HEAD + chunk.asString + TEXT_PROMPT_TAIL
  }

  /** Two chunks get the same prompt only if their string forms agree. */
  lemma TextPromptDeterminesChunkText(a: Chunk, b: Chunk)
    requires TextPrompt(a) == TextPrompt(b)
    ensures a.asString == b.asString
  {
    var n := |TEXT_PROMPT_HEAD|;
    assert a.asString == TextPrompt(a)[n..|TextPrompt(a)| - 1];
    assert b.asString == TextPrompt(b)[n..|TextPrompt(b)| - 1];
  }

  /** The request `summarize_text` sends: the formatted prompt alone. */
  function TextRequest(chunk: Chunk): Request {
    [Text(TextPrompt(chunk))]
  }

  /** The request `summarize_base64_image` sends: the prompt and the image. */
  function ImageRequest(imageB64: string): Request {
    [Text(IMAGE_PROMPT), InlineData(JPEG, imageB64)]
  }

  /** `response.text.strip() if response and response.text else placeholder`,
      inside `try`, with `except Exception as e: return prefix + str(e)`. */
  function Settle(o: Outcome, placeholder: string, errorPrefix: string): string {
    match o
    case Responded(text) => if text != "" then Strip(text) else placeholder
    case NoResponse => placeholder
    case Raised(message) => errorPrefix + message
  }

  /** `summarize_text(chunk)`. A response with some non-whitespace text gives
      that text trimmed; stripping comes after the emptiness test, so a
      whitespace-only response gives `""`, not the placeholder; no response
      or an empty one gives the placeholder; an exception gives its message
      after the error prefix. */
  function SummarizeText(chunk: Chunk, generate: Request -> Outcome): (r: string)
    ensures var o := generate(TextRequest(chunk));
            && (o.Responded? && !AllWhitespace(o.text) ==>
                  r == Strip(o.text) && r != "" && !IsWhitespace(r[0]) && !IsWhitespace(r[|r| - 1]))
            && (o.Responded? && o.text != "" && AllWhitespace(o.text) ==> r == "")
            && (o == NoResponse || o == Responded("") ==> r == NO_SUMMARY)
            && (o.Raised? ==> r == GENERATION_ERROR + o.message)
  {
    Settle(generate(TextRequest(chunk)), NO_SUMMARY, GENERATION_ERROR)
  }

  /** `summarize_base64_image(image_b64)`, by the same rules with its own
      placeholder and error prefix. */
  function SummarizeBase64Image(imageB64: string, generate: Request -> Outcome): (r: string)
    ensures var o := generate(ImageRequest(imageB64));
            && (o.Responded? && !AllWhitespace(o.text) ==>
                  r == Strip(o.text) && r != "" && !IsWhitespace(r[0]) && !IsWhitespace(r[|r| - 1]))
            && (o.Responded? && o.text != "" && AllWhitespace(o.text) ==> r == "")
            && (o == NoResponse || o == Responded("") ==> r == NO_DESCRIPTION)
            && (o.Raised? ==> r == IMAGE_ERROR + o.message)
  {
    Settle(generate(ImageRequest(imageB64)), NO_DESCRIPTION, IMAGE_ERROR)
  }

  /** The outcome of one run of a cache block: the summaries it binds and
      what the cache file holds afterwards. */
  datatype CacheRun = CacheRun(summaries: seq<string>, stored: Option<seq<string>>)

  /** The cache block as a function of the file's contents: a stored list is
      returned as it is, whatever the items are; otherwise one summary per
      item is computed and stored. */
  function RunCacheBlock<T>(stored: Option<seq<string>>, items: seq<T>, summarize: T -> string): CacheRun {
    match stored
    case Some(cached) => CacheRun(cached, stored)
    case None =>
      var computed := Map(items, summarize);
      CacheRun(computed, Some(computed))
  }

  /** The JSON file a cache block reads and writes. */
  class CacheFile {
    const path: string
    var stored: Option<seq<string>>

    constructor (path: string, stored: Option<seq<string>>)
      ensures this.path == path && this.stored == stored
    {
      this.path := path;
      this.stored := stored;
    }

    /** `if os.path.exists(path): json.load ... else: [summarize(x) for x in
        items]; json.dump ...`. */
    method LoadOrCompute<T>(items: seq<T>, summarize: T -> string) returns (summaries: seq<string>)
      modifies this
      ensures CacheRun(summaries, stored) == RunCacheBlock(old(stored), items, summarize)
      ensures old(stored).Some? ==> summaries == old(stored).value && stored == old(stored)
      ensures old(stored).None? ==> |summaries| == |items| && stored == Some(summaries)
    {
      if stored.Some? {
        summaries := stored.value;
      } else {
        summaries := Map(items, summarize);
        stored := Some(summaries);
        MapLength(items, summarize);
      }
    }
  }

  /** text_summaries.py's cache block over the full chunk list. */
  method TextSummaries(file: CacheFile, texts: seq<Chunk>, generate: Request -> Outcome) returns (summaries: seq<string>)
    modifies file
    ensures CacheRun(summaries, file.stored)
            == RunCacheBlock(old(file.stored), texts, c => SummarizeText(c, generate))
  {
    summaries := file.LoadOrCompute(texts, c => SummarizeText(c, generate));
  }

  /** image_summaries.py's cache block over the extracted image payloads. */
  method ImageSummaries(file: CacheFile, images: seq<string>, generate: Request -> Outcome) returns (summaries: seq<string>)
    modifies file
    ensures CacheRun(summaries, file.stored)
            == RunCacheBlock(old(file.stored), images, img => SummarizeBase64Image(img, generate))
  {
    summaries := file.LoadOrCompute(images, img => SummarizeBase64Image(img, generate));
  }

  /** Without a cache file the block yields one summary per item, in order. */
  lemma FreshRunSummarizesEachItem<T>(items: seq<T>, summarize: T -> string)
    ensures var run := RunCacheBlock(None, items, summarize);
            && |run.summaries| == |items|
            && (forall k :: 0 <= k < |items| ==> run.summaries[k] == summarize(items[k]))
            && run.stored == Some(run.summaries)
  {
    MapLength(items, summarize);
    forall k | 0 <= k < |items| ensures Map(items, summarize)[k] == summarize(items[k]) {
      MapAt(items, summarize, k);
    }
  }

  /** A second run after a first returns the same list, whatever the items
      and the summarizer are then, and leaves the file unchanged. */
  lemma SecondRunRepeatsFirst<T>(stored: Option<seq<string>>, items: seq<T>, items': seq<T>,
                                 summarize: T -> string, summarize': T -> string)
    ensures var first := RunCacheBlock(stored, items, summarize);
            RunCacheBlock(first.stored, items', summarize') == first
  {
  }

  /** A stored list is returned without regard to the items: a cache left by
      an earlier document has the wrong length for the current chunks. */
  lemma StaleCacheLengthMismatch(c1: Chunk, c2: Chunk, generate: Request -> Outcome)
    ensures |RunCacheBlock(Some(["stale"]), [c1, c2], c => SummarizeText(c, generate)).summaries| < |[c1, c2]|
    ensures |RunCacheBlock(Some(["a", "b", "c"]), [c1, c2], c => SummarizeText(c, generate)).summaries| > |[c1, c2]|
  {
  }
}
