/**
 * Grounded generation: the retrieved records are rendered into a context
 * block, wrapped into the Phi-3 chat prompt, handed to the language model,
 * and the decoded continuation is cut at the first end tag.
 */
module Generation {
  import opened Wrappers
  import opened Text
  import opened Documents
  import opened Retrieval

  /** The system instruction of the grounded prompt. */
  const SYSTEM_MSG: string :=
    "You are a helpful SaaS support assistant.\n"
    + "You must ONLY answer using the provided context snippets.\n"
    + "If the answer is not in the context, reply exactly: \"I don't know.\".\n"
    + "Always finish with a 'Sources:' list showing titles or URLs."

  /** The block used when nothing was retrieved. */
  const NO_CONTEXT: string := "No relevant context retrieved."

  /** The end-of-turn tag at which the model's output is cut. */
  const END_TAG: string := "<|end|>"

  /** `f"{score:.3f}"`: float formatting is not modelled. */
  type ScoreFormat = real -> string

  /** `str(d)` of a stored document: Python's dict repr is not modelled. */
  type DocRepr = Doc -> string

  // ---------------------------------------------------------------------------
  // Context block
  // ---------------------------------------------------------------------------

  /**
   * The heading of the i-th record (counting from 1): its title, else its
   * URL, else its id, else `Doc<i>`, each taken only when non-empty.
   */
  function ContextTitle(c: SearchResult, i: nat): (r: string)
    ensures r != ""
    ensures Truthy(c.title) ==> r == c.title.value
    ensures !Truthy(c.title) && Truthy(c.url) ==> r == c.url.value
    ensures !Truthy(c.title) && !Truthy(c.url) && c.id != "" ==> r == c.id
    ensures !Truthy(c.title) && !Truthy(c.url) && c.id == "" ==> r == "Doc" + NatToString(i)
  {
    if Truthy(c.title) then c.title.value
    else if Truthy(c.url) then c.url.value
    else if c.id != "" then c.id
    else "Doc" + NatToString(i)
  }

  /**
   * The record's text: `Q:`/`A:` when it has a question or an answer, else
   * its attributes as `k: v` joined by "; ", else the repr of the stored
   * document, or nothing when there is none.
   */
  function Snippet(c: SearchResult, repr: DocRepr): string {
    if Truthy(c.question) || Truthy(c.answer) then
      "Q: " + Show(c.question) + "\nA: " + Show(c.answer)
    else if c.attributes.Some? && c.attributes.value != [] then
      Join("; ", KeyValues(c.attributes.value))
    else if c.raw.Some? then repr(c.raw.value)
    else ""
  }

  /** One entry of the context block. */
  function ContextEntry(c: SearchResult, i: nat, fmt: ScoreFormat, repr: DocRepr): string {
    "[" + ContextTitle(c, i) + "] (score=" + fmt(c.score) + ")\n" + Snippet(c, repr)
  }

  /** The entries of the context block, numbered from 1. */
  function ContextEntries(ctx: seq<SearchResult>, fmt: ScoreFormat, repr: DocRepr): (r: seq<string>)
    ensures |r| == |ctx|
    ensures forall i :: 0 <= i < |ctx| ==> r[i] == ContextEntry(ctx[i], i + 1, fmt, repr)
  {
    seq(|ctx|, i requires 0 <= i < |ctx| => ContextEntry(ctx[i], i + 1, fmt, repr))
  }

  /** The context block: the entries separated by a blank line. */
  function ContextText(ctx: seq<SearchResult>, fmt: ScoreFormat, repr: DocRepr): string {
    Join("\n\n", ContextEntries(ctx, fmt, repr))
  }

  /**
   * Each entry of the block opens with its bracketed heading, and with two
   * or more records the block is the first ones' block, a blank line, and
   * the last record's entry.
   */
  lemma ContextTextShape(ctx: seq<SearchResult>, fmt: ScoreFormat, repr: DocRepr)
    requires ctx != []
    ensures var n := |ctx|;
      var last := ContextEntry(ctx[n - 1], n, fmt, repr);
      && ("[" + ContextTitle(ctx[n - 1], n) + "] (score=") <= last
      && (n == 1 ==> ContextText(ctx, fmt, repr) == last)
      && (n > 1 ==> ContextText(ctx, fmt, repr) == ContextText(ctx[..n - 1], fmt, repr) + "\n\n" + last)
  {
    var n := |ctx|;
    var es := ContextEntries(ctx, fmt, repr);
    if n > 1 {
      assert es[..n - 1] == ContextEntries(ctx[..n - 1], fmt, repr);
    }
  }

  /** `_format_context(ctx)`: the entries are collected in a loop and joined. */
  method FormatContext(ctx: seq<SearchResult>, fmt: ScoreFormat, repr: DocRepr) returns (r: string)
    ensures r == ContextText(ctx, fmt, repr)
  {
    var lines: seq<string> := [];
    for i := 0 to |ctx|
      invariant lines == ContextEntries(ctx[..i], fmt, repr)
    {
      var c := ctx[i];
      var title := ContextTitle(c, i + 1);
      var snippet := Snippet(c, repr);
      lines := lines + ["[" + title + "] (score=" + fmt(c.score) + ")\n" + snippet];
    }
    assert ctx[..|ctx|] == ctx;
    r := Join("\n\n", lines);
  }

  /** The block placed in the prompt: the formatted context, or the fixed notice when nothing was retrieved. */
  function ContextBlock(ctx: seq<SearchResult>, fmt: ScoreFormat, repr: DocRepr): (r: string)
    ensures ctx == [] <==> r == NO_CONTEXT
  {
    if ctx == [] then NO_CONTEXT
    else
      var t := ContextText(ctx, fmt, repr);
      ContextTextShape(ctx, fmt, repr);
      if |ctx| == 1 then
        assert t[0] == '[' != NO_CONTEXT[0];
        t
      else
        ContextTextBracket(ctx, fmt, repr);
        assert t[0] != NO_CONTEXT[0];
        t
  }

  /** A non-empty context block opens with the first entry's bracket. */
  lemma {:induction false} ContextTextBracket(ctx: seq<SearchResult>, fmt: ScoreFormat, repr: DocRepr)
    requires ctx != []
    ensures ContextText(ctx, fmt, repr) != [] && ContextText(ctx, fmt, repr)[0] == '['
  {
    ContextTextShape(ctx, fmt, repr);
    if |ctx| > 1 {
      ContextTextBracket(ctx[..|ctx| - 1], fmt, repr);
    }
  }

  // ---------------------------------------------------------------------------
  // Prompt and answer
  // ---------------------------------------------------------------------------

  /** The prompt up to the context block. */
  function PromptHead(query: string): string {
    "<|system|>\n" + SYSTEM_MSG + "\n<|end|>\n<|user|>\nQuestion: " + query + "\n\nContext:\n"
  }

  /** The prompt after the context block. */
  const PROMPT_TAIL: string := "\n<|end|>\n<|assistant|>\n"

  /**
   * `build_prompt(user_query, ctx)`: the system turn with `SYSTEM_MSG`, the
   * user turn with the question and the context block, and the opened
   * assistant turn.
   */
  function BuildPrompt(query: string, ctx: seq<SearchResult>, fmt: ScoreFormat, repr: DocRepr): (r: string)
    ensures |r| == |PromptHead(query)| + |ContextBlock(ctx, fmt, repr)| + |PROMPT_TAIL|
    ensures PromptHead(query) <= r
    ensures r[|r| - |PROMPT_TAIL|..] == PROMPT_TAIL
    ensures r[|PromptHead(query)|..|r| - |PROMPT_TAIL|] == ContextBlock(ctx, fmt, repr)
  {
    var head, block := PromptHead(query), ContextBlock(ctx, fmt, repr);
    var r := head + block + PROMPT_TAIL;
    assert r[..|head|] == head;
    assert r[|head|..|r| - |PROMPT_TAIL|] == block;
    r
  }

  /**
   * The decoded continuation, stripped and cut before the first end tag: a
   * prefix of the stripped text that never contains the tag, and all of it
   * when the tag does not occur.
   */
  function DecodeAnswer(decoded: string): (r: string)
    ensures r <= Strip(decoded)
    ensures !Contains(r, END_TAG)
    ensures !Contains(Strip(decoded), END_TAG) ==> r == Strip(decoded)
    ensures r != Strip(decoded) ==> OccursAt(Strip(decoded), END_TAG, |r|)
  {
    BeforeFirst(Strip(decoded), END_TAG)
  }

  /** The language model: the decoded new tokens for a prompt, or None when generation raises. */
  type LanguageModel = string -> Option<string>

  datatype GenerationError = GenerationFailed

  /** What `generate_from_context(user_query, ctx)` returns, as a value. */
  function Generated(query: string, ctx: seq<SearchResult>, llm: LanguageModel, fmt: ScoreFormat, repr: DocRepr)
    : Result<string, GenerationError>
  {
    match llm(BuildPrompt(query, ctx, fmt, repr))
    case None => Failure(GenerationFailed)
    case Some(decoded) => Success(DecodeAnswer(decoded))
  }

  /** `generate_from_context(user_query, ctx)`: format, prompt, generate and cut. */
  method GenerateFromContext(query: string, ctx: seq<SearchResult>, llm: LanguageModel, fmt: ScoreFormat, repr: DocRepr)
    returns (r: Result<string, GenerationError>)
    ensures r == Generated(query, ctx, llm, fmt, repr)
  {
    var block := NO_CONTEXT;
    if ctx != [] {
      block := FormatContext(ctx, fmt, repr);
    }
    var prompt := PromptHead(query) + block + PROMPT_TAIL;
    assert prompt == BuildPrompt(query, ctx, fmt, repr);
    var out := llm(prompt);
    if out.None? {
      return Failure(GenerationFailed);
    }
    r := Success(DecodeAnswer(out.value));
  }
}
