/**
 * The earlier single-store sidecar: a product index over a CSV, a shipping
 * policy loaded at start-up, and a `/generate` handler that prompts the model
 * with the best-matching products.
 */
module LegacyServer {
  import opened Wrappers
  import opened Text
  import Generation

  const BASE_SYSTEM: string :=
    "You are a helpful assistant for an equestrian apparel store. "
    + "Give complete product suggestions in full sentences, with names, prices, stock, and categories. "
    + "Be concise, friendly, and informative. Compare items when helpful."

  const POLICY_HEADER: string := "[Store Shipping Policy]"
  const PRODUCTS_HEADER: string := "[Relevant Product Matches]"

  // ---------------------------------------------------------------------------
  // Shipping policy
  // ---------------------------------------------------------------------------

  /** The policy files tried, in order, relative to the working directory. */
  const POLICY_PATHS: seq<string> := ["shipping_policy.md", "policies/shipping.md", "policy/shipping.md"]

  /** Position i is the first policy path that exists. */
  predicate FirstExisting(files: map<string, string>, i: int)
    requires 0 <= i < |POLICY_PATHS|
  {
    POLICY_PATHS[i] in files && forall j :: 0 <= j < i ==> POLICY_PATHS[j] !in files
  }

  /**
   * `load_policy_text()`, with the readable files given as a path-to-contents
   * map and `SHIP_POLICY` as an optional environment value: the stripped
   * contents of the first existing candidate, else the stripped environment
   * value, else the empty string.
   */
  method LoadPolicyText(files: map<string, string>, shipPolicy: Option<string>) returns (r: string)
    ensures forall i :: 0 <= i < |POLICY_PATHS| && FirstExisting(files, i) ==> r == Strip(files[POLICY_PATHS[i]])
    ensures (forall i :: 0 <= i < |POLICY_PATHS| ==> POLICY_PATHS[i] !in files) ==> r == Strip(shipPolicy.GetOr(""))
  {
    for i := 0 to |POLICY_PATHS|
      invariant forall j :: 0 <= j < i ==> POLICY_PATHS[j] !in files
    {
      var path := POLICY_PATHS[i];
      if path in files {
        return Strip(files[path]);
      }
    }
    return Strip(shipPolicy.GetOr(""));
  }

  // ---------------------------------------------------------------------------
  // Prompt
  // ---------------------------------------------------------------------------

  /** An optional prompt section: nothing when the body is empty. */
  function Section(header: string, body: string): (r: string)
    ensures r == "" <==> body == ""
    ensures body != "" ==> ("\n\n" + header + "\n") <= r && r[|header| + 3..] == body
  {
    if body == "" then "" else "\n\n" + header + "\n" + body
  }

  function SystemHead(): string {
    "<|system|>\n" + BASE_SYSTEM
  }

  /** The closing of the prompt: the stripped user input and the opened assistant turn. */
  function UserTurn(userInput: string): string {
    "\n<|end|>\n<|user|>\n" + Strip(userInput) + "\n<|end|>\n<|assistant|>\n"
  }

  /**
   * The prompt of `build_prompt(user_input, product_info)` with `POLICY_TEXT`
   * as `policyText`: the system head, then the policy section only when there
   * is a policy, then the product section only when there are products, then
   * the user turn with the stripped input.
   */
  function PromptText(userInput: string, productInfo: string, policyText: string): (r: string)
    ensures SystemHead() <= r
    ensures |r| >= |SystemHead()| + |UserTurn(userInput)|
    ensures r[|r| - |UserTurn(userInput)|..] == UserTurn(userInput)
    ensures r[|SystemHead()|..|r| - |UserTurn(userInput)|]
            == Section(POLICY_HEADER, policyText) + Section(PRODUCTS_HEADER, productInfo)
  {
    var head, middle, tail := SystemHead(), Section(POLICY_HEADER, policyText) + Section(PRODUCTS_HEADER, productInfo), UserTurn(userInput);
    var r := head + middle + tail;
    assert r[..|head|] == head;
    assert r[|head|..|r| - |tail|] == middle;
    assert r[|r| - |tail|..] == tail;
    r
  }

  /** `build_prompt`: the prompt grown one section at a time. */
  method BuildPrompt(userInput: string, productInfo: string, policyText: string) returns (r: string)
    ensures r == PromptText(userInput, productInfo, policyText)
  {
    var prompt := SystemHead();
    if policyText != "" {
      prompt := prompt + Section(POLICY_HEADER, policyText);
    }
    assert prompt == SystemHead() + Section(POLICY_HEADER, policyText);
    ghost var withPolicy := prompt;
    if productInfo != "" {
      prompt := prompt + Section(PRODUCTS_HEADER, productInfo);
    }
    assert prompt == withPolicy + Section(PRODUCTS_HEADER, productInfo);
    prompt := prompt + UserTurn(userInput);
    ConcatAssoc(SystemHead(), Section(POLICY_HEADER, policyText), Section(PRODUCTS_HEADER, productInfo));
    r := prompt;
  }

  lemma ConcatAssoc(a: string, b: string, c: string)
    ensures a + b + c == a + (b + c)
  {
  }

  // ---------------------------------------------------------------------------
  // Product retrieval
  // ---------------------------------------------------------------------------

  /** A row of the product table, each cell as pandas renders it. */
  datatype Product = Product(name: string, category: string, description: string, price: string, stock: string)

  function ProductLine(p: Product): string {
    "- " + p.name + " (" + p.category + "): " + p.description + " Price: $" + p.price + ", Stock: " + p.stock
  }

  /** The product index search: row positions for a query, or None when encoding or FAISS raises. */
  type ProductSearch = (string, int) -> Option<seq<int>>

  /**
   * `product_df.iloc[idx]`: positions from the end for -n..-1, an
   * `IndexError` (None) outside -n..n-1.
   */
  function ILoc(rows: seq<Product>, idx: int): (r: Option<Product>)
    ensures r.Some? <==> -|rows| <= idx < |rows|
    ensures 0 <= idx < |rows| ==> r == Some(rows[idx])
    ensures idx == -1 && rows != [] ==> r == Some(rows[|rows| - 1])
  {
    if 0 <= idx < |rows| then Some(rows[idx])
    else if -|rows| <= idx < 0 then Some(rows[|rows| + idx])
    else None
  }

  /** The lines for the searched positions, or None as soon as one position is out of range. */
  function Lines(rows: seq<Product>, indices: seq<int>): (r: Option<seq<string>>)
    ensures r.Some? <==> forall i :: 0 <= i < |indices| ==> ILoc(rows, indices[i]).Some?
    ensures r.Some? ==>
      && |r.value| == |indices|
      && forall i :: 0 <= i < |indices| ==> r.value[i] == ProductLine(ILoc(rows, indices[i]).value)
  {
    if indices == [] then Some([])
    else
      var n := |indices|;
      match (Lines(rows, indices[..n - 1]), ILoc(rows, indices[n - 1]))
      case (Some(ls), Some(p)) => Some(ls + [ProductLine(p)])
      case _ => None
  }

  /**
   * What `retrieve_top_products(query, top_k)` returns as written: "" when
   * the table or the index was never built or anything raises, else the
   * product lines joined by newlines, with FAISS's -1 padding read as the
   * last row.
   */
  function TopProducts(table: Option<seq<Product>>, indexBuilt: bool, query: string, topK: int,
                       search: ProductSearch): string
  {
    if table.None? || !indexBuilt then ""
    else
      match search(query, topK)
      case None => ""
      case Some(indices) =>
        match Lines(table.value, indices)
        case None => ""
        case Some(lines) => Join("\n", lines)
  }

  /**
   * With fewer products than `top_k`, FAISS pads the result with -1, and the
   * code as written lists the last product once more for each padding entry.
   */
  lemma PaddingRepeatsLastProduct(rows: seq<Product>, indices: seq<int>, i: int)
    requires rows != []
    requires 0 <= i < |indices| && indices[i] == -1
    requires Lines(rows, indices).Some?
    ensures Lines(rows, indices).value[i] == ProductLine(rows[|rows| - 1])
  {
  }

  /** The intended lines: padding positions are skipped, as the tenant retrieval does. */
  function LinesSkippingPadding(rows: seq<Product>, indices: seq<int>): Option<seq<string>> {
    if indices == [] then Some([])
    else
      var n := |indices|;
      var prev := LinesSkippingPadding(rows, indices[..n - 1]);
      if indices[n - 1] == -1 then prev
      else
        match (prev, ILoc(rows, indices[n - 1]))
        case (Some(ls), Some(p)) => Some(ls + [ProductLine(p)])
        case _ => None
  }

  /**
   * Skipping the padding, every line comes from a distinct non-padding
   * position: there are exactly as many lines as positions other than -1,
   * and no position outside the table is ever read as the last row.
   */
  lemma {:induction false} SkippingPaddingFacts(rows: seq<Product>, indices: seq<int>)
    requires forall i :: 0 <= i < |indices| ==> indices[i] == -1 || 0 <= indices[i] < |rows|
    ensures LinesSkippingPadding(rows, indices).Some?
    ensures |LinesSkippingPadding(rows, indices).value| == |indices| - Padding(indices)
    ensures forall l :: l in LinesSkippingPadding(rows, indices).value ==>
      exists i :: 0 <= i < |indices| && indices[i] != -1 && l == ProductLine(rows[indices[i]])
  {
    if indices != [] {
      var n := |indices|;
      var prefix := indices[..n - 1];
      assert forall i :: 0 <= i < |prefix| ==> prefix[i] == indices[i];
      SkippingPaddingFacts(rows, prefix);
    }
  }

  /** The number of padding entries. */
  function Padding(indices: seq<int>): (r: nat)
    ensures r <= |indices|
  {
    if indices == [] then 0
    else Padding(indices[..|indices| - 1]) + (if indices[|indices| - 1] == -1 then 1 else 0)
  }

  /** `retrieve_top_products` with the padding skipped. */
  function TopProductsSkippingPadding(table: Option<seq<Product>>, indexBuilt: bool, query: string, topK: int,
                                      search: ProductSearch): string
  {
    if table.None? || !indexBuilt then ""
    else
      match search(query, topK)
      case None => ""
      case Some(indices) =>
        match LinesSkippingPadding(table.value, indices)
        case None => ""
        case Some(lines) => Join("\n", lines)
  }

  /** With no table or no index, both versions return "" whatever the search would give. */
  lemma TopProductsFallbacks(table: Option<seq<Product>>, indexBuilt: bool, query: string, topK: int,
                             search: ProductSearch)
    requires table.None? || !indexBuilt || search(query, topK).None?
    ensures TopProducts(table, indexBuilt, query, topK, search) == ""
    ensures TopProductsSkippingPadding(table, indexBuilt, query, topK, search) == ""
  {
  }

  /**
   * `retrieve_top_products(query, top_k)` with the padding skipped: the loop
   * over the searched positions.
   */
  method RetrieveTopProducts(table: Option<seq<Product>>, indexBuilt: bool, query: string, topK: int,
                             search: ProductSearch) returns (r: string)
    ensures r == TopProductsSkippingPadding(table, indexBuilt, query, topK, search)
  {
    if table.None? || !indexBuilt {
      return "";
    }
    var found := search(query, topK);
    if found.None? {
      return "";
    }
    var indices := found.value;
    var lines: seq<string> := [];
    for i := 0 to |indices|
      invariant LinesSkippingPadding(table.value, indices[..i]) == Some(lines)
    {
      assert indices[..i + 1][..i] == indices[..i];
      if indices[i] == -1 {
        continue;
      }
      var row := ILoc(table.value, indices[i]);
      if row.None? {
        LinesSkippingPaddingFails(table.value, indices, i + 1);
        return "";
      }
      lines := lines + [ProductLine(row.value)];
    }
    assert indices[..|indices|] == indices;
    r := Join("\n", lines);
  }

  /**
   * `retrieve_top_products(query, top_k)` as written: the loop reads every
   * searched position with `iloc`, padding included, and the first position
   * outside the table makes the whole result "".
   */
  method RetrieveTopProductsAsWritten(table: Option<seq<Product>>, indexBuilt: bool, query: string, topK: int,
                                      search: ProductSearch) returns (r: string)
    ensures r == TopProducts(table, indexBuilt, query, topK, search)
  {
    if table.None? || !indexBuilt {
      return "";
    }
    var found := search(query, topK);
    if found.None? {
      return "";
    }
    var indices := found.value;
    var lines: seq<string> := [];
    for i := 0 to |indices|
      invariant Lines(table.value, indices[..i]) == Some(lines)
    {
      assert indices[..i + 1][..i] == indices[..i];
      var row := ILoc(table.value, indices[i]);
      if row.None? {
        return "";
      }
      lines := lines + [ProductLine(row.value)];
    }
    assert indices[..|indices|] == indices;
    r := Join("\n", lines);
  }

  /** When the search returns no padding, both versions list the same lines. */
  lemma {:induction false} NoPaddingSameLines(rows: seq<Product>, indices: seq<int>)
    requires forall i :: 0 <= i < |indices| ==> indices[i] != -1
    ensures Lines(rows, indices) == LinesSkippingPadding(rows, indices)
  {
    if indices != [] {
      var n := |indices|;
      var prefix := indices[..n - 1];
      assert forall i :: 0 <= i < |prefix| ==> prefix[i] == indices[i];
      NoPaddingSameLines(rows, prefix);
    }
  }

  /** Once a prefix of the positions fails, every longer prefix fails too. */
  lemma {:induction false} LinesSkippingPaddingFails(rows: seq<Product>, indices: seq<int>, n: nat)
    requires n <= |indices|
    requires LinesSkippingPadding(rows, indices[..n]).None?
    ensures LinesSkippingPadding(rows, indices).None?
  {
    if n < |indices| {
      var m := |indices|;
      assert indices[..m - 1][..n] == indices[..n];
      LinesSkippingPaddingFails(rows, indices[..m - 1], n);
    } else {
      assert indices[..n] == indices;
    }
  }

  // ---------------------------------------------------------------------------
  // Generation
  // ---------------------------------------------------------------------------

  const GENERATION_FAILED: string := "generation_failed"

  /**
   * `generate(req)` as written: the prompt lists the last product once more
   * for each padding position of the search.
   */
  method GenerateAsWritten(prompt: string, table: Option<seq<Product>>, indexBuilt: bool, policyText: string,
                           search: ProductSearch, llm: Generation.LanguageModel)
    returns (r: Result<string, string>)
    ensures var full := PromptText(prompt, TopProducts(table, indexBuilt, prompt, 4, search), policyText);
      match llm(full)
      case None => r == Failure(GENERATION_FAILED)
      case Some(decoded) => r == Success(Generation.DecodeAnswer(decoded)) && !Contains(r.value, Generation.END_TAG)
  {
    var context := RetrieveTopProductsAsWritten(table, indexBuilt, prompt, 4, search);
    var full := BuildPrompt(prompt, context, policyText);
    var out := llm(full);
    if out.None? {
      return Failure(GENERATION_FAILED);
    }
    r := Success(Generation.DecodeAnswer(out.value));
  }

  /**
   * `generate(req)` with the padding skipped: the products for the prompt,
   * the prompt, the model, and the output cut at the first end tag; a model
   * failure is "generation_failed".
   */
  method Generate(prompt: string, table: Option<seq<Product>>, indexBuilt: bool, policyText: string,
                  search: ProductSearch, llm: Generation.LanguageModel)
    returns (r: Result<string, string>)
    ensures var full := PromptText(prompt, TopProductsSkippingPadding(table, indexBuilt, prompt, 4, search), policyText);
      match llm(full)
      case None => r == Failure(GENERATION_FAILED)
      case Some(decoded) => r == Success(Generation.DecodeAnswer(decoded)) && !Contains(r.value, Generation.END_TAG)
  {
    var context := RetrieveTopProducts(table, indexBuilt, prompt, 4, search);
    var full := BuildPrompt(prompt, context, policyText);
    var out := llm(full);
    if out.None? {
      return Failure(GENERATION_FAILED);
    }
    r := Success(Generation.DecodeAnswer(out.value));
  }
}
