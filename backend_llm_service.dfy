/** The earlier revision of LLMService (backend/services/llm_service.py):
    the prompt lists the preferences key by key and the browsed products,
    and never the catalog; the interpreter looks products up with a nested
    loop and prefixes the messages of the exceptions it catches. */
module BackendLlmService {
  import opened Wrappers
  import opened Records
  import opened Text

  const Intro: string :=
    "Based on the following user preferences and browsing history, recommend 5 products from the catalog with explanations.\n\n"
  const PrefsHeading: string := "User Preferences:\n"
  const HistoryHeading: string := "\nBrowsing History:\n"
  const Instructions: string :=
    "\nPlease recommend 5 products from the catalog that match the user's preferences and browsing history. "
    + "For each recommendation, provide the product ID, name, and a brief explanation of why you're recommending it.\n"
  const FormatNote: string :=
    "\nFormat your response as a JSON array with objects containing 'product_id', 'explanation', and 'score' (1-10 indicating confidence)."

  const NoArrayError: string := "Could not parse recommendations from LLM response"
  const ParseErrorPrefix: string := "Failed to parse recommendations: "
  const WrapPrefix: string := "Failed to generate recommendations: "

  /** The line of one preference entry: "- ", the key, ": ", the value as
      show(v) gives it (the text Python's f-string gives for v), a newline. */
  function PrefLine(show: Json -> string, entry: (string, Json)): (r: string)
    ensures |r| == |entry.0| + |show(entry.1)| + 5
    ensures r[..|entry.0| + 4] == "- " + entry.0 + ": "
    ensures r[|entry.0| + 4..|r| - 1] == show(entry.1) && r[|r| - 1] == '\n'
  {
    "- " + entry.0 + ": " + show(entry.1) + "\n"
  }

  /** PrefLine as the renderer of the preference block. */
  function PrefRenderer(show: Json -> string): ((string, Json)) -> string
  {
    (entry: (string, Json)) => PrefLine(show, entry)
  }

  /** A browsing-history line: name, category, price. The line opens with
      "- " and the name and closes with ")" and a newline. */
  function HistoryLine(p: Product): (r: string)
    ensures |r| >= |"- " + p.name + " (Category: "| + 2
    ensures r[..|"- " + p.name + " (Category: "|] == "- " + p.name + " (Category: " && r[|r| - 2..] == ")\n"
  {
    "- " + p.name + " (Category: " + p.category + ", Price: $" + p.price + ")\n"
  }

  /** The prompt between its opening (the introduction sentence) and its
      closing (the instructions): the preference lines, then the history
      lines. It has no catalog argument: only browsed products are ever
      listed. */
  function PromptFrom(opening: string, prefs: Prefs, show: Json -> string, browsed: seq<Product>, closing: string): string
  {
    PrefsSection(opening, prefs, show) + HistorySection(browsed, closing)
  }

  /** The opening, the preferences heading, one line per preference entry. */
  function PrefsSection(opening: string, prefs: Prefs, show: Json -> string): string
  {
    opening + PrefsHeading + Lines(PrefRenderer(show), prefs)
  }

  /** The history heading, one line per browsed product, the closing text. */
  function HistorySection(browsed: seq<Product>, closing: string): string
  {
    HistoryHeading + Lines(HistoryLine, browsed) + closing
  }

  function Prompt(prefs: Prefs, show: Json -> string, browsed: seq<Product>): string
  {
    PromptFrom(Intro, prefs, show, browsed, Instructions + FormatNote)
  }

  /** _create_recommendation_prompt: `+=` one line per preference entry in
      dict order, then one per browsed product; the catalog is not read. */
  method BuildPrompt(prefs: Prefs, show: Json -> string, browsed: seq<Product>, allProducts: seq<Product>)
    returns (prompt: string)
    ensures prompt == Prompt(prefs, show, browsed)
  {
    prompt := Intro;
    prompt := prompt + PrefsHeading;
    prompt := AppendLines(prompt, PrefRenderer(show), prefs);
    prompt := prompt + HistoryHeading;
    prompt := AppendLines(prompt, HistoryLine, browsed);
    prompt := prompt + Instructions;
    prompt := prompt + FormatNote;
    AppendSection(PrefsSection(Intro, prefs, show), HistoryHeading, Lines(HistoryLine, browsed),
                  Instructions, FormatNote);
  }

  /** The k-th preference entry's "- key: value" line follows the
      "User Preferences:" heading and the lines of the entries before it. */
  lemma PrefLineInPrompt(opening: string, prefs: Prefs, show: Json -> string, browsed: seq<Product>, closing: string, k: nat)
    requires k < |prefs|
    ensures var o := |opening + PrefsHeading| + |Lines(PrefRenderer(show), prefs[..k])|;
            var line := PrefLine(show, prefs[k]);
            var prompt := PromptFrom(opening, prefs, show, browsed, closing);
            o + |line| <= |prompt| && prompt[o..o + |line|] == line
  {
    LineInText(opening + PrefsHeading, PrefRenderer(show), prefs, HistorySection(browsed, closing), k);
  }

  /** The k-th browsed product's line follows the "Browsing History:"
      heading and the lines of the products browsed before it. */
  lemma HistoryLineInPrompt(opening: string, prefs: Prefs, show: Json -> string, browsed: seq<Product>, closing: string, k: nat)
    requires k < |browsed|
    ensures var o := |PrefsSection(opening, prefs, show) + HistoryHeading| + |Lines(HistoryLine, browsed[..k])|;
            var line := HistoryLine(browsed[k]);
            var prompt := PromptFrom(opening, prefs, show, browsed, closing);
            o + |line| <= |prompt| && prompt[o..o + |line|] == line
  {
    LineInSection(PrefsSection(opening, prefs, show), HistoryHeading, HistoryLine, browsed, closing, k);
  }

  // ---------------------------------------------------------------------------
  // Response interpreter

  /** _parse_recommendation_response of this revision as a function of the
      reply, the catalog and the JSON decoder. */
  function Interpret(reply: string, catalog: seq<Product>, parse: string -> Result<seq<Json>, string>): (r: RecResult)
    ensures r.Listed? ==> r.count == |r.recommendations|
    ensures r.FailSoft? ==> r.recommendations == []
  {
    match BracketSlice(reply)
    case None => FailSoft([], NoArrayError)
    case Some(payload) =>
      match parse(payload)
      case Failure(m) => FailSoft([], ParseErrorPrefix + m)
      case Success(elems) =>
        match Enrich(elems, catalog)
        case Failure(m) => FailSoft([], ParseErrorPrefix + m)
        case Success(recs) => Listed(recs, |recs|)
  }

  /** The interpreter's loops: find the brackets, decode the payload, then
      for each element scan the catalog for its id and append a
      recommendation when one is found. */
  method ParseResponse(reply: string, catalog: seq<Product>, parse: string -> Result<seq<Json>, string>)
    returns (result: RecResult)
    ensures result == Interpret(reply, catalog, parse)
    ensures result.Listed? ==> result.count == |result.recommendations|
  {
    var start := Find(reply, '[');
    var end := RFind(reply, ']') + 1;
    if start == -1 || end == 0 {
      return FailSoft([], NoArrayError);
    }
    var payload := Slice(reply, start, end);
    match parse(payload) {
      case Failure(m) =>
        return FailSoft([], ParseErrorPrefix + m);
      case Success(recData) =>
        var recommendations := [];
        var i := 0;
        while i < |recData|
          invariant 0 <= i <= |recData|
          invariant Enrich(recData[..i], catalog) == Success(recommendations)
        {
          var rec := recData[i];
          if !rec.JObj? {
            EnrichFirstNonObject(recData, catalog, i);
            return FailSoft([], ParseErrorPrefix + AttributeMessage(rec));
          }
          EnrichSnoc(recData, catalog, i);
          var productId := Get(rec.fields, "product_id", JNull);
          var productDetails := FindProduct(catalog, productId);
          if productDetails.Some? {
            recommendations := recommendations + [RecItem(productDetails.value,
              Get(rec.fields, "explanation", JStr("")), Get(rec.fields, "score", JNum(5)))];
          }
          i := i + 1;
        }
        assert recData[..i] == recData;
        return Listed(recommendations, |recommendations|);
    }
  }

  /** A reply with no '[' or no ']' yields this revision's unprefixed
      "could not parse" error. */
  lemma NoArrayIsSoftFailure(reply: string, catalog: seq<Product>, parse: string -> Result<seq<Json>, string>)
    requires '[' !in reply || ']' !in reply
    ensures Interpret(reply, catalog, parse) == FailSoft([], NoArrayError)
  {
  }

  /** A decoder failure is reported with the "Failed to parse
      recommendations: " prefix before its message. */
  lemma DecodeFailureIsSoft(reply: string, catalog: seq<Product>, parse: string -> Result<seq<Json>, string>)
    requires BracketSlice(reply).Some? && parse(BracketSlice(reply).value).Failure?
    ensures Interpret(reply, catalog, parse)
              == FailSoft([], ParseErrorPrefix + parse(BracketSlice(reply).value).error)
  {
  }

  /** When the last ']' comes before the first '[', the decoder is handed the
      empty string; given that json.loads rejects it, the prefixed error
      results. */
  lemma ReversedBracketsFail(reply: string, catalog: seq<Product>, parse: string -> Result<seq<Json>, string>)
    requires '[' in reply && ']' in reply
    requires forall i, j :: 0 <= i < |reply| && 0 <= j < |reply| && reply[i] == '[' && reply[j] == ']' ==> j < i
    requires parse("").Failure?
    ensures Interpret(reply, catalog, parse) == FailSoft([], ParseErrorPrefix + parse("").error)
  {
    BracketSliceShape(reply);
  }

  /** An element that is not a dict aborts the join; the AttributeError of
      the first such element is reported with the prefix. */
  lemma NonObjectIsSoftFailure(reply: string, catalog: seq<Product>, parse: string -> Result<seq<Json>, string>, k: nat)
    requires BracketSlice(reply).Some? && parse(BracketSlice(reply).value).Success?
    requires var elems := parse(BracketSlice(reply).value).value;
             k < |elems| && !elems[k].JObj? && forall i :: 0 <= i < k ==> elems[i].JObj?
    ensures Interpret(reply, catalog, parse)
              == FailSoft([], ParseErrorPrefix + AttributeMessage(parse(BracketSlice(reply).value).value[k]))
  {
    EnrichFirstNonObject(parse(BracketSlice(reply).value).value, catalog, k);
  }

  /** Every listed result came from a payload running from the first '[' to
      the last ']' that decoded into dicts only; it lists, in order, those
      whose product_id is a catalog id, each joined with its first catalog
      record, and count equals the length. */
  lemma ListedResult(reply: string, catalog: seq<Product>, parse: string -> Result<seq<Json>, string>)
    requires parse("").Failure?
    requires Interpret(reply, catalog, parse).Listed?
    ensures BracketSlice(reply).Some?
    ensures var p := BracketSlice(reply).value;
            |p| >= 2 && p[0] == '[' && p[|p| - 1] == ']'
            && p == reply[Find(reply, '[')..RFind(reply, ']') + 1]
    ensures var elems := parse(BracketSlice(reply).value).value;
            var r := Interpret(reply, catalog, parse);
            parse(BracketSlice(reply).value).Success?
            && (forall i :: 0 <= i < |elems| ==> elems[i].JObj?)
            && r.recommendations == JoinAll(catalog, MatchedElems(catalog, elems))
            && r.count == |r.recommendations| <= |elems|
  {
    ListedPath(reply, catalog, parse);
  }

  // ---------------------------------------------------------------------------
  // Orchestration

  /** generate_recommendations of this revision: the same lookup and the
      same re-raise of a failed model call as the current revision, with
      this revision's prompt and interpreter. */
  method GenerateRecommendations(prefs: Prefs, history: seq<string>, catalog: seq<Product>,
                                 show: Json -> string,
                                 llm: string -> Result<string, string>,
                                 parse: string -> Result<seq<Json>, string>)
    returns (outcome: Result<RecResult, string>)
    ensures var prompt := Prompt(prefs, show, Browsed(history, catalog));
            match llm(prompt)
            case Failure(m) => outcome == Failure(WrapPrefix + m)
            case Success(reply) => outcome == Success(Interpret(reply, catalog, parse))
    ensures outcome.Success? ==> outcome.value.Listed? ==> outcome.value.count == |outcome.value.recommendations|
  {
    var browsed := BrowsedProducts(history, catalog);
    var prompt := BuildPrompt(prefs, show, browsed, catalog);
    match llm(prompt) {
      case Failure(m) =>
        outcome := Failure(WrapPrefix + m);
      case Success(reply) =>
        var recommendations := ParseResponse(reply, catalog, parse);
        outcome := Success(recommendations);
    }
  }
}
