/** The current revision of LLMService (services/llm_service.py): the prompt
    lists the serialised preferences, the browsed products and the first 20
    catalog products; the interpreter's errors carry the bare message. */
module LlmService {
  import opened Wrappers
  import opened Records
  import opened Text

  /** How many catalog products the prompt offers as candidates. */
  const MaxCandidates: nat := 20

  /** The framing text that opens the prompt, up to the serialised preferences. */
  const Framing: string :=
    "\n    You are an intelligent eCommerce recommendation engine.\n\n"
    + "    Given the user's preferences and their browsing history, your job is to recommend exactly 5 products from the candidate list below.\n\n"
    + "    Respond ONLY in a valid JSON array. Each recommendation must include:\n"
    + "    - \"product_id\": string\n"
    + "    - \"explanation\": string\n"
    + "    - \"score\": number (confidence score from 1 to 10)\n\n"
    + "    DO NOT include any extra text before or after the JSON.\n\n"
    + "    User Preferences:\n    "

  const HistoryHeading: string := "\n\nBrowsing History:\n"
  const CandidateHeading: string := "\nCandidate Products:\n"
  const Reminder: string := "\nREMEMBER: Choose only from the above product list and follow the JSON format exactly.\n"

  const NoArrayError: string := "Could not find JSON array in LLM response"
  const WrapPrefix: string := "Failed to generate recommendations: "

  /** all_products[:20]: the longest catalog prefix of at most 20 products. */
  function Candidates(catalog: seq<Product>): (r: seq<Product>)
    ensures |r| <= MaxCandidates && |r| <= |catalog| && r == catalog[..|r|]
    ensures |r| == MaxCandidates || r == catalog
  {
    if |catalog| <= MaxCandidates then catalog else catalog[..MaxCandidates]
  }

  /** A browsing-history line: name, category, price, brand. The line opens
      with "- " and the name and closes with ")" and a newline. */
  function HistoryLine(p: Product): (r: string)
    ensures |r| >= |"- " + p.name + " ("| + 2
    ensures r[..|"- " + p.name + " ("|] == "- " + p.name + " (" && r[|r| - 2..] == ")\n"
  {
    "- " + p.name + " (" + p.category + ", $" + p.price + ", Brand: " + p.brand + ")\n"
  }

  /** A candidate line: id, name, category, price, brand. The line opens
      with "- ID: " and the id and ends with the brand and a newline. */
  function CandidateLine(p: Product): (r: string)
    ensures |r| >= |"- ID: " + p.id + ", Name: "| + |p.brand| + 1
    ensures r[..|"- ID: " + p.id + ", Name: "|] == "- ID: " + p.id + ", Name: "
    ensures r[|r| - |p.brand| - 1..] == p.brand + "\n"
  {
    "- ID: " + p.id + ", Name: " + p.name + ", Category: " + p.category
      + ", Price: $" + p.price + ", Brand: " + p.brand + "\n"
  }

  /** The prompt between its opening and its closing text, section by
      section in its fixed order: the browsing history, then the candidates. */
  function PromptFrom(opening: string, browsed: seq<Product>, catalog: seq<Product>, closing: string): string
  {
    opening + HistoryHeading + Lines(HistoryLine, browsed)
      + CandidateHeading + Lines(CandidateLine, Candidates(catalog)) + closing
  }

  /** The prompt: the framing text and the serialised preferences open it,
      the reminder closes it. */
  function Prompt(prefsJson: string, browsed: seq<Product>, catalog: seq<Product>): string
  {
    PromptFrom(Framing + prefsJson, browsed, catalog, Reminder)
  }

  /** _create_recommendation_prompt: the prompt grows by `+=`, one line per
      browsed product, then one line per candidate. */
  method BuildPrompt(prefsJson: string, browsed: seq<Product>, catalog: seq<Product>) returns (prompt: string)
    ensures prompt == Prompt(prefsJson, browsed, catalog)
  {
    var candidates := Candidates(catalog);
    prompt := Framing + prefsJson;
    prompt := prompt + HistoryHeading;
    prompt := AppendLines(prompt, HistoryLine, browsed);
    prompt := prompt + CandidateHeading;
    prompt := AppendLines(prompt, CandidateLine, candidates);
    prompt := prompt + Reminder;
  }

  /** The prompt begins with its opening and ends with its closing text. */
  lemma PromptFrame(opening: string, browsed: seq<Product>, catalog: seq<Product>, closing: string)
    ensures var prompt := PromptFrom(opening, browsed, catalog, closing);
            |opening| + |closing| <= |prompt|
            && prompt[..|opening|] == opening
            && prompt[|prompt| - |closing|..] == closing
  {
    var mid := HistoryHeading + Lines(HistoryLine, browsed)
               + CandidateHeading + Lines(CandidateLine, Candidates(catalog));
    GroupMiddle(opening, HistoryHeading, Lines(HistoryLine, browsed),
             CandidateHeading, Lines(CandidateLine, Candidates(catalog)), closing);
    Between(opening, mid, closing);
  }

  /** The history section: the line of the k-th browsed product follows the
      "Browsing History:" heading and the lines of the products browsed
      before it. */
  lemma HistoryLineInPrompt(opening: string, browsed: seq<Product>, catalog: seq<Product>, closing: string, k: nat)
    requires k < |browsed|
    ensures var o := |opening + HistoryHeading| + |Lines(HistoryLine, browsed[..k])|;
            var line := HistoryLine(browsed[k]);
            var prompt := PromptFrom(opening, browsed, catalog, closing);
            o + |line| <= |prompt| && prompt[o..o + |line|] == line
  {
    var tail := CandidateHeading + Lines(CandidateLine, Candidates(catalog)) + closing;
    GroupTail(opening + HistoryHeading, Lines(HistoryLine, browsed), CandidateHeading,
             Lines(CandidateLine, Candidates(catalog)), closing);
    LineInText(opening + HistoryHeading, HistoryLine, browsed, tail, k);
  }

  /** The candidate section: the line of the k-th catalog product, for each
      of the first 20, follows the "Candidate Products:" heading and the
      lines of the products before it. */
  lemma CandidateLineInPrompt(opening: string, browsed: seq<Product>, catalog: seq<Product>, closing: string, k: nat)
    requires k < |catalog| && k < MaxCandidates
    ensures var pre := opening + HistoryHeading + Lines(HistoryLine, browsed) + CandidateHeading;
            var o := |pre| + |Lines(CandidateLine, catalog[..k])|;
            var line := CandidateLine(catalog[k]);
            var prompt := PromptFrom(opening, browsed, catalog, closing);
            o + |line| <= |prompt| && prompt[o..o + |line|] == line
  {
    var cands := Candidates(catalog);
    assert cands[..k] == catalog[..k] && cands[k] == catalog[k];
    var pre := opening + HistoryHeading + Lines(HistoryLine, browsed) + CandidateHeading;
    LineInText(pre, CandidateLine, cands, closing, k);
  }

  /** For given browsed products, catalog entries past the twentieth never
      change the prompt: they are never candidates, and they can appear only
      through the browsing history. */
  lemma PromptIgnoresLaterProducts(prefsJson: string, browsed: seq<Product>, catalog: seq<Product>, more: seq<Product>)
    requires |catalog| >= MaxCandidates
    ensures Prompt(prefsJson, browsed, catalog + more) == Prompt(prefsJson, browsed, catalog)
  {
    assert (catalog + more)[..MaxCandidates] == catalog[..MaxCandidates];
  }

  // ---------------------------------------------------------------------------
  // Response interpreter

  /** _parse_recommendation_response as a function of the reply, the
      catalog and the JSON decoder (Failure carries str(e) of its exception). */
  function Interpret(reply: string, catalog: seq<Product>, parse: string -> Result<seq<Json>, string>): (r: RecResult)
    ensures r.Listed? ==> r.count == |r.recommendations|
    ensures r.FailSoft? ==> r.recommendations == []
  {
    match BracketSlice(reply)
    case None => FailSoft([], NoArrayError)
    case Some(payload) =>
      match parse(payload)
      case Failure(m) => FailSoft([], m)
      case Success(elems) =>
        match Enrich(elems, catalog)
        case Failure(m) => FailSoft([], m)
        case Success(recs) => Listed(recs, |recs|)
  }

  /** The interpreter's loop: find the brackets, decode the payload, then
      append one recommendation per element whose id the catalog has. */
  method ParseResponse(reply: string, catalog: seq<Product>, parse: string -> Result<seq<Json>, string>)
    returns (result: RecResult)
    ensures result == Interpret(reply, catalog, parse)
    ensures result.Listed? ==> result.count == |result.recommendations|
  {
    var start := Find(reply, '[');
    var end := RFind(reply, ']') + 1;
    if start == -1 || end == 0 {
      return FailSoft([], NoArrayError);
    }
    var payload := Slice(reply, start, end);
    match parse(payload) {
      case Failure(m) =>
        return FailSoft([], m);
      case Success(recData) =>
        var recommendations := [];
        var i := 0;
        while i < |recData|
          invariant 0 <= i <= |recData|
          invariant Enrich(recData[..i], catalog) == Success(recommendations)
        {
          var rec := recData[i];
          if !rec.JObj? {
            EnrichFirstNonObject(recData, catalog, i);
            return FailSoft([], AttributeMessage(rec));
          }
          EnrichSnoc(recData, catalog, i);
          var productId := Get(rec.fields, "product_id", JNull);
          var details := FirstMatch(catalog, productId);
          if details.Some? {
            recommendations := recommendations + [RecItem(details.value,
              Get(rec.fields, "explanation", JStr("")), Get(rec.fields, "score", JNum(5)))];
          }
          i := i + 1;
        }
        assert recData[..i] == recData;
        return Listed(recommendations, |recommendations|);
    }
  }

  /** A reply with no '[' or no ']' yields the "no JSON array" error and no count. */
  lemma NoArrayIsSoftFailure(reply: string, catalog: seq<Product>, parse: string -> Result<seq<Json>, string>)
    requires '[' !in reply || ']' !in reply
    ensures Interpret(reply, catalog, parse) == FailSoft([], NoArrayError)
  {
  }

  /** When the last ']' comes before the first '[', the decoder is handed the
      empty string; given that json.loads rejects it, the result is its error. */
  lemma ReversedBracketsFail(reply: string, catalog: seq<Product>, parse: string -> Result<seq<Json>, string>)
    requires '[' in reply && ']' in reply
    requires forall i, j :: 0 <= i < |reply| && 0 <= j < |reply| && reply[i] == '[' && reply[j] == ']' ==> j < i
    requires parse("").Failure?
    ensures Interpret(reply, catalog, parse) == FailSoft([], parse("").error)
  {
    BracketSliceShape(reply);
  }

  /** A decoder failure is reported with its own message. */
  lemma DecodeFailureIsSoft(reply: string, catalog: seq<Product>, parse: string -> Result<seq<Json>, string>)
    requires BracketSlice(reply).Some? && parse(BracketSlice(reply).value).Failure?
    ensures Interpret(reply, catalog, parse) == FailSoft([], parse(BracketSlice(reply).value).error)
  {
  }

  /** An element that is not a dict aborts the join with the AttributeError
      of the first such element. */
  lemma NonObjectIsSoftFailure(reply: string, catalog: seq<Product>, parse: string -> Result<seq<Json>, string>, k: nat)
    requires BracketSlice(reply).Some? && parse(BracketSlice(reply).value).Success?
    requires var elems := parse(BracketSlice(reply).value).value;
             k < |elems| && !elems[k].JObj? && forall i :: 0 <= i < k ==> elems[i].JObj?
    ensures Interpret(reply, catalog, parse)
              == FailSoft([], AttributeMessage(parse(BracketSlice(reply).value).value[k]))
  {
    EnrichFirstNonObject(parse(BracketSlice(reply).value).value, catalog, k);
  }

  /** Every listed result came from a payload running from the first '[' to
      the last ']' that decoded into dicts only; it lists, in order, those
      whose product_id is a catalog id, each joined with its first catalog
      record, and count equals the length, which is at most the number of
      decoded elements. */
  lemma ListedResult(reply: string, catalog: seq<Product>, parse: string -> Result<seq<Json>, string>)
    requires parse("").Failure?
    requires Interpret(reply, catalog, parse).Listed?
    ensures BracketSlice(reply).Some?
    ensures var p := BracketSlice(reply).value;
            |p| >= 2 && p[0] == '[' && p[|p| - 1] == ']'
            && p == reply[Find(reply, '[')..RFind(reply, ']') + 1]
    ensures var elems := parse(BracketSlice(reply).value).value;
            var r := Interpret(reply, catalog, parse);
            parse(BracketSlice(reply).value).Success?
            && (forall i :: 0 <= i < |elems| ==> elems[i].JObj?)
            && r.recommendations == JoinAll(catalog, MatchedElems(catalog, elems))
            && r.count == |r.recommendations| <= |elems|
  {
    ListedPath(reply, catalog, parse);
  }

  // ---------------------------------------------------------------------------
  // Orchestration

  /** generate_recommendations: look up the browsed products, build the
      prompt, ask the model; a failed call is re-raised with the prefix
      "Failed to generate recommendations: ", a reply is interpreted. */
  method GenerateRecommendations(prefs: Prefs, history: seq<string>, catalog: seq<Product>,
                                 dumps: Prefs -> string,
                                 llm: string -> Result<string, string>,
                                 parse: string -> Result<seq<Json>, string>)
    returns (outcome: Result<RecResult, string>)
    ensures var prompt := Prompt(dumps(prefs), Browsed(history, catalog), catalog);
            match llm(prompt)
            case Failure(m) => outcome == Failure(WrapPrefix + m)
            case Success(reply) => outcome == Success(Interpret(reply, catalog, parse))
    ensures outcome.Success? ==> outcome.value.Listed? ==> outcome.value.count == |outcome.value.recommendations|
  {
    var browsed := BrowsedProducts(history, catalog);
    var prompt := BuildPrompt(dumps(prefs), browsed, catalog);
    match llm(prompt) {
      case Failure(m) =>
        outcome := Failure(WrapPrefix + m);
      case Success(reply) =>
        var recommendations := ParseResponse(reply, catalog, parse);
        outcome := Success(recommendations);
    }
  }
}
