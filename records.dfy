/** The values both revisions of LLMService work on: decoded JSON, catalog
    products, recommendation items and the result dictionary; the catalog
    lookup by product id; and the browsing-history lookup, whose code is the
    same in both revisions. */
module Records {
  import opened Wrappers
  import opened Text

  /** A value as Python's json module holds it. JNull is Python's None, so a
      dict.get that finds nothing yields JNull. Numbers are integers here. */
  datatype Json =
    | JNull
    | JBool(b: bool)
    | JNum(n: int)
    | JStr(s: string)
    | JArr(items: seq<Json>)
    | JObj(fields: map<string, Json>)

  /** The user's preferences dictionary, entries in insertion order. */
  type Prefs = seq<(string, Json)>

  /** A catalog record, with the fields the service reads. The price is kept
      as the text Python prints for it, the only use the service makes of it. */
  datatype Product = Product(id: string, name: string, category: string, price: string, brand: string)

  /** One entry of the "recommendations" list. */
  datatype RecItem = RecItem(product: Product, explanation: Json, confidenceScore: Json)

  /** The dictionary the response interpreter returns: either
      {recommendations, count} or {recommendations, error}. */
  datatype RecResult =
    | Listed(recommendations: seq<RecItem>, count: int)
    | FailSoft(recommendations: seq<RecItem>, error: string)

  /** Python's dict.get(key, default): the entry when the key is present,
      the default otherwise. */
  function Get(fields: map<string, Json>, key: string, default: Json): (r: Json)
    ensures key in fields ==> r == fields[key]
    ensures key !in fields ==> r == default
  {
    if key in fields then fields[key] else default
  }

  /** The name Python gives the type of a decoded value. */
  function TypeName(v: Json): string
  {
    match v
    case JNull => "NoneType"
    case JBool(_) => "bool"
    case JNum(_) => "int"
    case JStr(_) => "str"
    case JArr(_) => "list"
    case JObj(_) => "dict"
  }

  /** The message of the AttributeError raised by calling .get on a value
      that is not a dict: the quoted type name, then the missing attribute. */
  function AttributeMessage(v: Json): (r: string)
    ensures var t := TypeName(v);
            |r| == |t| + |AttributeTail| + 1 && r[0] == '\''
            && r[1..|t| + 1] == t && r[|t| + 1..] == AttributeTail
  {
    "'" + TypeName(v) + AttributeTail
  }

  /** What follows the type name in the AttributeError message. */
  const AttributeTail: string := "' object has no attribute 'get'"

  /** `product["id"] == key`: catalog ids are strings, so only a string key
      can be equal to one. */
  predicate HasId(p: Product, key: Json)
  {
    key == JStr(p.id)
  }

  /** The position of the first catalog product whose id equals key. */
  function FirstIndex(catalog: seq<Product>, key: Json): (r: Option<nat>)
    ensures r.Some? ==> r.value < |catalog| && HasId(catalog[r.value], key)
    ensures r.Some? ==> forall i :: 0 <= i < r.value ==> !HasId(catalog[i], key)
    ensures r.None? ==> forall i :: 0 <= i < |catalog| ==> !HasId(catalog[i], key)
  {
    if catalog == [] then None
    else if HasId(catalog[0], key) then Some(0)
    else match FirstIndex(catalog[1..], key)
      case None => None
      case Some(j) => Some(j + 1)
  }

  /** The first catalog product whose id equals key, or None. */
  function FirstMatch(catalog: seq<Product>, key: Json): (r: Option<Product>)
    ensures r.Some? <==> exists i :: 0 <= i < |catalog| && HasId(catalog[i], key)
    ensures r.Some? ==> exists j :: 0 <= j < |catalog| && catalog[j] == r.value && HasId(catalog[j], key)
                          && forall i :: 0 <= i < j ==> !HasId(catalog[i], key)
  {
    match FirstIndex(catalog, key)
    case None => None
    case Some(j) => Some(catalog[j])
  }

  /** A catalog product with a given id exists exactly when a first one does. */
  lemma FirstMatchExists(catalog: seq<Product>, id: string)
    ensures FirstMatch(catalog, JStr(id)).Some? <==> exists i :: 0 <= i < |catalog| && catalog[i].id == id
  {
    if FirstMatch(catalog, JStr(id)).Some? {
      var j := FirstIndex(catalog, JStr(id)).value;
      assert catalog[j].id == id;
    }
  }

  /** The inner loop of the lookups: scan the catalog in order, stop at the
      first product whose id equals key. */
  method FindProduct(catalog: seq<Product>, key: Json) returns (found: Option<Product>)
    ensures found == FirstMatch(catalog, key)
    ensures found.Some? ==> found.value in catalog && HasId(found.value, key)
  {
    found := None;
    var k := 0;
    while k < |catalog|
      invariant 0 <= k <= |catalog|
      invariant forall i :: 0 <= i < k ==> !HasId(catalog[i], key)
    {
      if HasId(catalog[k], key) {
        found := Some(catalog[k]);
        break;
      }
      k := k + 1;
    }
  }

  // ---------------------------------------------------------------------------
  // Browsing-history lookup

  /** The ids of a list of products, in order. */
  function Ids(ps: seq<Product>): (r: seq<string>)
    ensures |r| == |ps|
  {
    seq(|ps|, k requires 0 <= k < |ps| => ps[k].id)
  }

  /** The history ids that some catalog product carries, in history order,
      repeats kept. */
  function KnownIds(history: seq<string>, catalog: seq<Product>): seq<string>
    decreases |history|
  {
    if history == [] then []
    else
      var last := history[|history| - 1];
      KnownIds(history[..|history| - 1], catalog)
        + (if FirstMatch(catalog, JStr(last)).Some? then [last] else [])
  }

  /** The browsed products: for each history id in turn, the first catalog
      product with that id; ids the catalog lacks contribute nothing. */
  function Browsed(history: seq<string>, catalog: seq<Product>): (r: seq<Product>)
    decreases |history|
    ensures Ids(r) == KnownIds(history, catalog)
    ensures forall k :: 0 <= k < |r| ==> FirstMatch(catalog, JStr(r[k].id)) == Some(r[k])
  {
    if history == [] then []
    else
      var rest := Browsed(history[..|history| - 1], catalog);
      match FirstMatch(catalog, JStr(history[|history| - 1]))
      case None => rest
      case Some(p) => rest + [p]
  }

  /** An id is kept exactly when it occurs in the history and in the catalog. */
  lemma {:induction false} KnownIdsMembers(history: seq<string>, catalog: seq<Product>, id: string)
    ensures id in KnownIds(history, catalog) <==>
              id in history && exists i :: 0 <= i < |catalog| && catalog[i].id == id
    decreases |history|
  {
    FirstMatchExists(catalog, id);
    if history != [] {
      var init := history[..|history| - 1];
      KnownIdsMembers(init, catalog, id);
      assert history == init + [history[|history| - 1]];
    }
  }

  /** At most one browsed product per history id. */
  lemma {:induction false} KnownIdsBound(history: seq<string>, catalog: seq<Product>)
    ensures |KnownIds(history, catalog)| <= |history|
    ensures |Browsed(history, catalog)| <= |history|
    decreases |history|
  {
    if history != [] {
      KnownIdsBound(history[..|history| - 1], catalog);
    }
  }

  /** When every history id is in the catalog, nothing is skipped. */
  lemma {:induction false} KnownIdsAllKnown(history: seq<string>, catalog: seq<Product>)
    requires forall j :: 0 <= j < |history| ==> FirstMatch(catalog, JStr(history[j])).Some?
    ensures KnownIds(history, catalog) == history
    decreases |history|
  {
    if history != [] {
      var init := history[..|history| - 1];
      var last := history[|history| - 1];
      assert forall j :: 0 <= j < |init| ==> init[j] == history[j];
      KnownIdsAllKnown(init, catalog);
      assert FirstMatch(catalog, JStr(last)).Some?;
      assert history == init + [last];
    }
  }

  /** When every history id is in the catalog, one product per history id
      is browsed, and the k-th is the first catalog product carrying the
      k-th id. */
  lemma BrowsedAllKnown(history: seq<string>, catalog: seq<Product>)
    requires forall j :: 0 <= j < |history| ==> FirstMatch(catalog, JStr(history[j])).Some?
    ensures var r := Browsed(history, catalog);
            |r| == |history|
            && forall k :: 0 <= k < |r| ==> FirstMatch(catalog, JStr(history[k])) == Some(r[k])
  {
    KnownIdsAllKnown(history, catalog);
    var r := Browsed(history, catalog);
    assert Ids(r) == history;
    assert forall k :: 0 <= k < |r| ==> Ids(r)[k] == r[k].id;
  }

  /** The outer loop of generate_recommendations: for each history id, the
      first catalog product carrying it is appended. */
  method BrowsedProducts(history: seq<string>, catalog: seq<Product>) returns (browsed: seq<Product>)
    ensures browsed == Browsed(history, catalog)
    ensures Ids(browsed) == KnownIds(history, catalog)
  {
    browsed := [];
    var i := 0;
    while i < |history|
      invariant 0 <= i <= |history|
      invariant browsed == Browsed(history[..i], catalog)
    {
      var found := FindProduct(catalog, JStr(history[i]));
      assert history[..i + 1][..i] == history[..i];
      if found.Some? {
        browsed := browsed + [found.value];
      }
      i := i + 1;
    }
    assert history[..i] == history;
  }

  // ---------------------------------------------------------------------------
  // Enrichment join, shared by both revisions' response interpreters

  /** A decoded element that is a dict whose "product_id" names a catalog product. */
  predicate Matches(catalog: seq<Product>, e: Json)
  {
    e.JObj? && FirstIndex(catalog, Get(e.fields, "product_id", JNull)).Some?
  }

  /** The recommendation built from a matching element. */
  function JoinOne(catalog: seq<Product>, e: Json): (r: RecItem)
    requires Matches(catalog, e)
    ensures FirstMatch(catalog, Get(e.fields, "product_id", JNull)) == Some(r.product)
    ensures "explanation" in e.fields ==> r.explanation == e.fields["explanation"]
    ensures "explanation" !in e.fields ==> r.explanation == JStr("")
    ensures "score" in e.fields ==> r.confidenceScore == e.fields["score"]
    ensures "score" !in e.fields ==> r.confidenceScore == JNum(5)
  {
    var j := FirstIndex(catalog, Get(e.fields, "product_id", JNull)).value;
    RecItem(catalog[j], Get(e.fields, "explanation", JStr("")), Get(e.fields, "score", JNum(5)))
  }

  /** The enrichment loop over the decoded elements, in order: a non-dict
      element raises AttributeError at .get, a dict whose id is unknown is
      dropped, the others are joined with their catalog record. */
  function Enrich(elems: seq<Json>, catalog: seq<Product>): (r: Result<seq<RecItem>, string>)
    decreases |elems|
    ensures r.Success? <==> forall i :: 0 <= i < |elems| ==> elems[i].JObj?
    ensures r.Success? ==> |r.value| <= |elems|
  {
    if elems == [] then Success([])
    else
      var last := elems[|elems| - 1];
      match Enrich(elems[..|elems| - 1], catalog)
      case Failure(m) => Failure(m)
      case Success(recs) =>
        if !last.JObj? then Failure(AttributeMessage(last))
        else if Matches(catalog, last) then Success(recs + [JoinOne(catalog, last)])
        else Success(recs)
  }

  /** One more dict element: the join gains that element's recommendation
      when its product_id is a catalog id, and nothing otherwise. */
  lemma EnrichSnoc(elems: seq<Json>, catalog: seq<Product>, i: nat)
    requires i < |elems| && elems[i].JObj? && Enrich(elems[..i], catalog).Success?
    ensures Matches(catalog, elems[i]) ==>
              Enrich(elems[..i + 1], catalog) == Success(Enrich(elems[..i], catalog).value + [JoinOne(catalog, elems[i])])
    ensures !Matches(catalog, elems[i]) ==> Enrich(elems[..i + 1], catalog) == Enrich(elems[..i], catalog)
  {
    var pre := elems[..i + 1];
    assert pre[..|pre| - 1] == elems[..i] && pre[|pre| - 1] == elems[i];
  }

  /** Reference definition of the join: the matching elements, in order. */
  function MatchedElems(catalog: seq<Product>, elems: seq<Json>): (r: seq<Json>)
    ensures forall k :: 0 <= k < |r| ==> Matches(catalog, r[k])
    ensures |r| <= |elems|
  {
    if elems == [] then []
    else if Matches(catalog, elems[0]) then [elems[0]] + MatchedElems(catalog, elems[1..])
    else MatchedElems(catalog, elems[1..])
  }

  /** Reference definition of the join: each matching element joined. */
  function JoinAll(catalog: seq<Product>, ms: seq<Json>): seq<RecItem>
    requires forall k :: 0 <= k < |ms| ==> Matches(catalog, ms[k])
  {
    seq(|ms|, k requires 0 <= k < |ms| => JoinOne(catalog, ms[k]))
  }

  /** Joining one more matching element adds its recommendation at the end. */
  lemma JoinAllSnoc(catalog: seq<Product>, ms: seq<Json>, e: Json)
    requires forall k :: 0 <= k < |ms| ==> Matches(catalog, ms[k])
    requires Matches(catalog, e)
    ensures forall k :: 0 <= k < |ms + [e]| ==> Matches(catalog, (ms + [e])[k])
    ensures JoinAll(catalog, ms + [e]) == JoinAll(catalog, ms) + [JoinOne(catalog, e)]
  {
    assert forall k :: 0 <= k < |ms| ==> (ms + [e])[k] == ms[k];
    assert (ms + [e])[|ms|] == e;
  }

  lemma {:induction false} MatchedElemsSnoc(catalog: seq<Product>, elems: seq<Json>, e: Json)
    ensures MatchedElems(catalog, elems + [e])
              == MatchedElems(catalog, elems) + (if Matches(catalog, e) then [e] else [])
  {
    if elems != [] {
      assert (elems + [e])[1..] == elems[1..] + [e];
      MatchedElemsSnoc(catalog, elems[1..], e);
    } else {
      assert (elems + [e])[1..] == [];
    }
  }

  /** The enrichment loop is an order-preserving filter followed by a join:
      the output lists, in element order, exactly the elements whose
      product_id is a catalog id, each joined with its first catalog match. */
  lemma {:induction false} EnrichIsFilterJoin(elems: seq<Json>, catalog: seq<Product>)
    requires forall i :: 0 <= i < |elems| ==> elems[i].JObj?
    ensures Enrich(elems, catalog) == Success(JoinAll(catalog, MatchedElems(catalog, elems)))
    decreases |elems|
  {
    if elems != [] {
      var n := |elems|;
      var init, last := elems[..n - 1], elems[n - 1];
      assert forall i :: 0 <= i < |init| ==> init[i] == elems[i];
      EnrichIsFilterJoin(init, catalog);
      assert elems == init + [last] && elems[..n] == elems;
      EnrichSnoc(elems, catalog, n - 1);
      MatchedElemsSnoc(catalog, init, last);
      var before := MatchedElems(catalog, init);
      if Matches(catalog, last) {
        JoinAllSnoc(catalog, before, last);
        assert MatchedElems(catalog, elems) == before + [last];
      } else {
        assert MatchedElems(catalog, elems) == before + [];
        assert before + [] == before;
      }
    } else {
      assert |JoinAll(catalog, MatchedElems(catalog, elems))| == 0;
    }
  }

  /** Every element whose product_id is a catalog id: nothing is dropped,
      and the k-th recommendation is the k-th element joined. */
  lemma EnrichAllKnown(elems: seq<Json>, catalog: seq<Product>)
    requires forall i :: 0 <= i < |elems| ==> Matches(catalog, elems[i])
    ensures Enrich(elems, catalog).Success?
    ensures |Enrich(elems, catalog).value| == |elems|
    ensures forall k :: 0 <= k < |elems| ==> Enrich(elems, catalog).value[k] == JoinOne(catalog, elems[k])
  {
    EnrichIsFilterJoin(elems, catalog);
    MatchedElemsAll(catalog, elems);
  }

  lemma {:induction false} MatchedElemsAll(catalog: seq<Product>, elems: seq<Json>)
    requires forall i :: 0 <= i < |elems| ==> Matches(catalog, elems[i])
    ensures MatchedElems(catalog, elems) == elems
  {
    if elems != [] {
      MatchedElemsAll(catalog, elems[1..]);
    }
  }

  /** An exception stops the loop: once a prefix of the elements raises, so
      does every longer prefix, with the same message. */
  lemma {:induction false} EnrichFailureSticks(elems: seq<Json>, catalog: seq<Product>, j: nat, n: nat)
    requires j <= n <= |elems|
    requires Enrich(elems[..j], catalog).Failure?
    ensures Enrich(elems[..n], catalog) == Enrich(elems[..j], catalog)
    decreases n - j
  {
    if j < n {
      var m := elems[..j + 1];
      assert m[..j] == elems[..j];
      EnrichFailureSticks(elems, catalog, j + 1, n);
    }
  }

  /** The first element that is not a dict decides the error message. */
  lemma EnrichFirstNonObject(elems: seq<Json>, catalog: seq<Product>, k: nat)
    requires k < |elems| && !elems[k].JObj?
    requires forall i :: 0 <= i < k ==> elems[i].JObj?
    ensures Enrich(elems, catalog) == Failure(AttributeMessage(elems[k]))
  {
    assert elems[..k + 1][..k] == elems[..k];
    assert Enrich(elems[..k], catalog).Success?;
    EnrichFailureSticks(elems, catalog, k + 1, |elems|);
    assert elems[..|elems|] == elems;
  }

  /** The listed path of both interpreters: when the bracket scan finds a
      payload, the decoder accepts it and the join succeeds, the payload runs
      from the first '[' to the last ']' (the decoder rejecting the empty
      string), every element is a dict, and the join lists, in order, the
      elements whose product_id is a catalog id, each with its first match. */
  lemma ListedPath(reply: string, catalog: seq<Product>, parse: string -> Result<seq<Json>, string>)
    requires parse("").Failure?
    requires BracketSlice(reply).Some? && parse(BracketSlice(reply).value).Success?
    requires Enrich(parse(BracketSlice(reply).value).value, catalog).Success?
    ensures var p := BracketSlice(reply).value;
            |p| >= 2 && p[0] == '[' && p[|p| - 1] == ']'
            && p == reply[Find(reply, '[')..RFind(reply, ']') + 1]
    ensures var elems := parse(BracketSlice(reply).value).value;
            var recs := Enrich(elems, catalog).value;
            (forall i :: 0 <= i < |elems| ==> elems[i].JObj?)
            && recs == JoinAll(catalog, MatchedElems(catalog, elems))
            && |recs| <= |elems|
  {
    BracketSliceShape(reply);
    EnrichIsFilterJoin(parse(BracketSlice(reply).value).value, catalog);
  }
}
