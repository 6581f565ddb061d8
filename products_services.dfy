/**
  * `ProductServiceExtractor.get_products_services`: the model's product and service
  * lists, extended with the products found on the company's website that neither list
  * already covers, and a confidence raised from "low" by what the website offered.
  * The scraper's `website_info` and the model's client are parameters.
  */
module ProductsServices {
  import opened Text
  import opened JsonValue
  import opened PyObject

  /** The lists `ai_products` and `ai_services` as they grow. */
  datatype Lists = Lists(products: Json, services: Json)

  const ServiceTerms: seq<string> := ["service", "consulting", "solution", "platform"]
  const ApiErrorNote: string := "Retrieved from website due to API error"

  /** Lines 23-37: `web_products` once the scraper has answered. `websiteInfo` is the
      scraper's `website_info`, `None` when there is no scraper, when it raises, or when
      it found no website. A `website_info` that is not a dict fails `.get` before
      `web_products` is rebound, and line 37 swallows that, so the list stays empty. */
  function WebProducts(websiteInfo: Option<Json>): Json
  {
    if websiteInfo.Some? && websiteInfo.value.JObj? then Get(websiteInfo.value.fields, "products_services", JArr([]))
    else JArr([])
  }

  /** Lines 32-35: how much the website's own products are worth. A truthy number or
      `True` has no `len`, and that `TypeError` is swallowed after "medium" was set. */
  function WebConfidence(webProducts: Json): string
  {
    if !Truthy(webProducts) then "low"
    else
      match Len(webProducts)
      case Ok(n) => if n > 3 then "high" else "medium"
      case Raised(_) => "medium"
  }

  /** The confidence is "low" exactly for falsy website products, "high" exactly when
      they are truthy and have more than three elements, and "medium" otherwise; on a
      list that is none, one to three, or more items. */
  lemma WebConfidenceLevels(webProducts: Json)
    ensures WebConfidence(webProducts) == "low" <==> !Truthy(webProducts)
    ensures WebConfidence(webProducts) == "high" <==>
              Truthy(webProducts) && Len(webProducts).Ok? && Len(webProducts).value > 3
    ensures WebConfidence(webProducts) == "medium" <==>
              Truthy(webProducts) && !(Len(webProducts).Ok? && Len(webProducts).value > 3)
    ensures webProducts.JArr? ==>
              WebConfidence(webProducts) == (if webProducts.items == [] then "low"
                                             else if |webProducts.items| > 3 then "high" else "medium")
  {
  }

  /* ------------------------------------------------------- is_duplicate */

  /** One lower-cased string inside the other. */
  predicate Overlaps(a: string, b: string)
  {
    Contains(a, b) || Contains(b, a)
  }

  /** The generator of line 60 over the items of the list. */
  function AnyOverlap(itemLower: string, existing: seq<Json>): Result<bool>
  {
    if existing == [] then Ok(false)
    else
      var e :- LowerOf(existing[0]);
      if Contains(itemLower, e) || Contains(e, itemLower) then Ok(true)
      else AnyOverlap(itemLower, existing[1..])
  }

  /** Lines 58-61: `is_duplicate(item, existing_list)`; the item is lower-cased before
      the list is iterated. */
  function IsDuplicate(item: Json, existingList: Json): Result<bool>
  {
    var itemLower :- LowerOf(item);
    var existing :- Iterate(existingList);
    AnyOverlap(itemLower, existing)
  }

  predicate AllStrings(xs: seq<Json>)
  {
    forall i | 0 <= i < |xs| :: xs[i].JStr?
  }

  /** A list of strings all of whose items are strings. */
  predicate StringList(j: Json)
  {
    j.JArr? && AllStrings(j.items)
  }

  /** `item` duplicates some string of `xs`, ignoring case, in either direction. */
  predicate DuplicateIn(item: string, xs: seq<Json>)
  {
    exists i | 0 <= i < |xs| :: xs[i].JStr? && Overlaps(Lower(item), Lower(xs[i].s))
  }

  lemma {:induction false} AnyOverlapMeans(item: string, xs: seq<Json>)
    requires AllStrings(xs)
    ensures AnyOverlap(Lower(item), xs) == Ok(DuplicateIn(item, xs))
  {
    if xs != [] {
      AnyOverlapMeans(item, xs[1..]);
      if DuplicateIn(item, xs[1..]) {
        var i :| 0 <= i < |xs[1..]| && xs[1..][i].JStr? && Overlaps(Lower(item), Lower(xs[1..][i].s));
        assert xs[i + 1] == xs[1..][i];
      }
      if DuplicateIn(item, xs) && !Overlaps(Lower(item), Lower(xs[0].s)) {
        var i :| 0 <= i < |xs| && xs[i].JStr? && Overlaps(Lower(item), Lower(xs[i].s));
        assert i > 0 && xs[1..][i - 1] == xs[i];
      }
    }
  }

  /** On a list of strings `is_duplicate` holds exactly when some element and the item,
      both lower-cased, contain one another one way or the other. */
  lemma IsDuplicateMeans(item: string, existing: Json)
    requires StringList(existing)
    ensures IsDuplicate(JStr(item), existing) == Ok(DuplicateIn(item, existing.items))
  {
    AnyOverlapMeans(item, existing.items);
  }

  /* ------------------------------------------------------------ the merge */

  /** Line 67: the words that make a lower-cased product a service. */
  predicate ServiceLike(productLower: string)
  {
    exists t | t in ServiceTerms :: Contains(productLower, t)
  }

  /** Lines 65-70 for one website product. */
  function Step(lists: Lists, product: Json): Result<Lists>
  {
    var inProducts :- IsDuplicate(product, lists.products);
    if inProducts then Ok(lists)
    else
      var inServices :- IsDuplicate(product, lists.services);
      if inServices then Ok(lists)
      else
        var productLower :- LowerOf(product);
        if ServiceLike(productLower) then
          var services :- Append(lists.services, product);
          Ok(Lists(lists.products, services))
        else
          var products :- Append(lists.products, product);
          Ok(Lists(products, lists.services))
  }

  /** Lines 64-70: every website product in turn. */
  function Merge(lists: Lists, web: seq<Json>): Result<Lists>
    decreases |web|
  {
    if web == [] then Ok(lists)
    else
      var next :- Step(lists, web[0]);
      Merge(next, web[1..])
  }

  predicate StringLists(lists: Lists)
  {
    StringList(lists.products) && StringList(lists.services)
  }

  /** On lists of strings a website product is added exactly when neither list already
      has a duplicate of it, to the services when it names a service term and to the
      products otherwise. */
  lemma StepAddsOnlyNewProducts(lists: Lists, product: string)
    requires StringLists(lists)
    ensures Step(lists, JStr(product)) == Ok(
      if DuplicateIn(product, lists.products.items) || DuplicateIn(product, lists.services.items) then lists
      else if ServiceLike(Lower(product)) then Lists(lists.products, JArr(lists.services.items + [JStr(product)]))
      else Lists(JArr(lists.products.items + [JStr(product)]), lists.services))
  {
    IsDuplicateMeans(product, lists.products);
    IsDuplicateMeans(product, lists.services);
  }

  /** `xs` starts with `prefix` and what follows are items of `web`. */
  predicate ExtendsWith(xs: seq<Json>, prefix: seq<Json>, web: seq<Json>)
  {
    |prefix| <= |xs| && xs[..|prefix|] == prefix
    && forall i | |prefix| <= i < |xs| :: xs[i] in web
  }

  /** `item` is covered: some string of either list duplicates it. */
  predicate Covered(item: string, lists: Lists)
  {
    || (lists.products.JArr? && DuplicateIn(item, lists.products.items))
    || (lists.services.JArr? && DuplicateIn(item, lists.services.items))
  }

  lemma DuplicateInExtension(item: string, xs: seq<Json>, ys: seq<Json>)
    requires DuplicateIn(item, xs) && |xs| <= |ys| && ys[..|xs|] == xs
    ensures DuplicateIn(item, ys)
  {
    var i :| 0 <= i < |xs| && xs[i].JStr? && Overlaps(Lower(item), Lower(xs[i].s));
    assert ys[i] == ys[..|xs|][i];
  }

  lemma OverlapsItself(s: string)
    ensures Overlaps(s, s)
  {
    assert OccursAt(s, s, 0);
  }

  /** On lists of strings the merge never raises, only appends (the model's own items
      stay first, in order), appends only website products, and leaves every website
      product covered by one of the two lists. */
  lemma {:induction false} MergeOfStringLists(lists: Lists, web: seq<Json>)
    requires StringLists(lists) && AllStrings(web)
    ensures Merge(lists, web).Ok?
    ensures var r := Merge(lists, web).value;
      && StringLists(r)
      && ExtendsWith(r.products.items, lists.products.items, web)
      && ExtendsWith(r.services.items, lists.services.items, web)
      && forall i | 0 <= i < |web| :: Covered(web[i].s, r)
    decreases |web|
  {
    if web != [] {
      StepCovers(lists, web[0].s);
      var next := Step(lists, web[0]).value;
      MergeOfStringLists(next, web[1..]);
      var r := Merge(lists, web).value;
      assert r == Merge(next, web[1..]).value;
      ExtendsChain(lists.products.items, next.products.items, r.products.items, web);
      ExtendsChain(lists.services.items, next.services.items, r.services.items, web);
      CoveredLater(web[0].s, next, r, web[1..]);
      forall i | 1 <= i < |web| ensures Covered(web[i].s, r) {
        assert web[i] == web[1..][i - 1];
      }
    }
  }

  /** On lists of strings a website product that is not a string makes the merge raise:
      the products before it are strings and go through, and its own `.lower()` fails. */
  lemma {:induction false} MergeRaisesOnNonString(lists: Lists, web: seq<Json>)
    requires StringLists(lists) && !AllStrings(web)
    ensures Merge(lists, web).Raised?
    decreases |web|
  {
    var i :| 0 <= i < |web| && !web[i].JStr?;
    if web[0].JStr? {
      StepCovers(lists, web[0].s);
      var next := Step(lists, web[0]).value;
      assert !web[1..][i - 1].JStr?;
      MergeRaisesOnNonString(next, web[1..]);
    }
  }

  /** One step leaves string lists that cover its product and only append it. */
  lemma StepCovers(lists: Lists, product: string)
    requires StringLists(lists)
    ensures Step(lists, JStr(product)).Ok?
    ensures var next := Step(lists, JStr(product)).value;
      && StringLists(next)
      && Covered(product, next)
      && ExtendsWith(next.products.items, lists.products.items, [JStr(product)])
      && ExtendsWith(next.services.items, lists.services.items, [JStr(product)])
  {
    StepAddsOnlyNewProducts(lists, product);
    var next := Step(lists, JStr(product)).value;
    if !Covered(product, lists) {
      OverlapsItself(Lower(product));
      if ServiceLike(Lower(product)) {
        assert next.services.items[|next.services.items| - 1] == JStr(product);
      } else {
        assert next.products.items[|next.products.items| - 1] == JStr(product);
      }
    }
  }

  lemma ExtendsChain(a: seq<Json>, b: seq<Json>, c: seq<Json>, web: seq<Json>)
    requires web != []
    requires ExtendsWith(b, a, [web[0]]) && ExtendsWith(c, b, web[1..])
    ensures ExtendsWith(c, a, web)
  {
    assert c[..|a|] == c[..|b|][..|a|];
    forall i | |a| <= i < |c| ensures c[i] in web {
      if i < |b| {
        assert c[i] == c[..|b|][i];
      } else {
        assert c[i] in web[1..];
      }
    }
  }

  /** What a step covered stays covered once the later steps have appended. */
  lemma CoveredLater(item: string, next: Lists, r: Lists, web: seq<Json>)
    requires StringLists(next) && StringLists(r) && Covered(item, next)
    requires ExtendsWith(r.products.items, next.products.items, web)
    requires ExtendsWith(r.services.items, next.services.items, web)
    ensures Covered(item, r)
  {
    if DuplicateIn(item, next.products.items) {
      DuplicateInExtension(item, next.products.items, r.products.items);
    } else {
      DuplicateInExtension(item, next.services.items, r.services.items);
    }
  }

  /** Lines 63-70 with the two lists as values. */
  method MergeWebProducts(products: Json, services: Json, web: seq<Json>) returns (r: Result<Lists>)
    ensures r == Merge(Lists(products, services), web)
  {
    var lists := Lists(products, services);
    for k := 0 to |web|
      invariant Merge(lists, web[k..]) == Merge(Lists(products, services), web)
    {
      assert web[k..][0] == web[k] && web[k..][1..] == web[k + 1..];
      var product := web[k];
      var inProducts := IsDuplicate(product, lists.products);
      if inProducts.Raised? {
        return Raised(inProducts.message);
      }
      if !inProducts.value {
        var inServices := IsDuplicate(product, lists.services);
        if inServices.Raised? {
          return Raised(inServices.message);
        }
        if !inServices.value {
          assert product.JStr?;
          if ServiceLike(Lower(product.s)) {
            var services := Append(lists.services, product);
            if services.Raised? {
              return Raised(services.message);
            }
            lists := Lists(lists.products, services.value);
          } else {
            var products := Append(lists.products, product);
            if products.Raised? {
              return Raised(products.message);
            }
            lists := Lists(products.value, lists.services);
          }
        }
      }
    }
    return Ok(lists);
  }

  /* ------------------------------------------------------- the whole call */

  /** Lines 76-77: "low" (or none) is raised to the website's level, anything else stays. */
  function AdjustConfidence(result: Json, webConfidence: string): Result<Json>
  {
    var confidence :- GetField(result, "confidence", JStr("low"));
    if confidence == JStr("low") && webConfidence in ["medium", "high"]
    then SetField(result, "confidence", JStr(webConfidence))
    else Ok(result)
  }

  /** Lines 49-82: the body of the `try`. */
  function Attempt(reply: Reply, web: Json): Result<Json>
  {
    match reply
    case Failed(m) => Raised(m)
    case Replied(result) =>
      if !Truthy(web) then Ok(result)
      else
        var products :- GetField(result, "products", JArr([]));
        var services :- GetField(result, "services", JArr([]));
        var items :- Iterate(web);
        var merged :- Merge(Lists(products, services), items);
        var withProducts :- SetField(result, "products", merged.products);
        var withServices :- SetField(withProducts, "services", merged.services);
        var adjusted :- AdjustConfidence(withServices, WebConfidence(web));
        SetField(adjusted, "sources", Strs(["gemini_api", "company_website"]))
  }

  /** Lines 83-93. */
  function Fallback(web: Json, message: string): Json
  {
    if Truthy(web) then
      JObj(map["products" := web, "services" := JArr([]), "confidence" := JStr(WebConfidence(web)),
               "sources" := Strs(["company_website"]), "note" := JStr(ApiErrorNote)])
    else
      JObj(map["error" := JStr(message), "products" := JArr([]), "services" := JArr([]), "confidence" := JStr("low")])
  }

  /** `get_products_services(company_name)` once the scraper has answered: never raises,
      since every exception of the `try` lands in the handler of line 83. */
  function ProductsAndServices(web: Json, reply: Reply): Json
  {
    match Attempt(reply, web)
    case Ok(result) => result
    case Raised(m) => Fallback(web, m)
  }

  /** Lines 39-46. */
  function Prompt(companyName: string): string
  {
    "\n        Research the company \"" + companyName + PromptRest()
  }

  /** The question after the company name. */
  function PromptRest(): string
  {
    Join("\n", PromptRestLines)
  }

  /** The lines of the question after the company name, each indented as in the source. */
  const PromptRestLines: seq<string> := [
    "\" and list its main products and services.",
    "        ",
    "        Format the response as JSON with these keys:",
    "        1. \"products\": [list of product names/categories]",
    "        2. \"services\": [list of service names/categories]",
    "        3. \"confidence\": (high, medium, or low based on information certainty)",
    "        "]

  /** Without truthy website products the model's reply is returned as it is. */
  lemma NoWebProductsKeepsReply(web: Json, result: Json)
    requires !Truthy(web)
    ensures ProductsAndServices(web, Replied(result)) == result
  {
  }

  /** When the model fails, truthy website products stand in as they are, with the
      website's confidence; without them the answer is an error record with empty lists
      and "low". */
  lemma ClientFailureFallback(web: Json, message: string)
    ensures var r := ProductsAndServices(web, Failed(message));
      && r.JObj? && r.fields["services"] == JArr([])
      && (Truthy(web) ==> r.fields["products"] == web && r.fields["confidence"] == JStr(WebConfidence(web))
                          && r.fields["note"] == JStr(ApiErrorNote) && "error" !in r.fields)
      && (!Truthy(web) ==> r.fields["products"] == JArr([]) && r.fields["confidence"] == JStr("low")
                           && r.fields["error"] == JStr(message))
  {
  }

  /** With a list of string website products and a dict reply whose lists hold strings,
      the reply keeps its items first and in order, every website product ends up
      covered, and the confidence is raised from "low" or missing to the website's level
      and otherwise kept. */
  lemma MergedReply(fields: map<string, Json>, web: seq<Json>)
    requires web != [] && AllStrings(web)
    requires StringList(Get(fields, "products", JArr([]))) && StringList(Get(fields, "services", JArr([])))
    ensures var r := ProductsAndServices(JArr(web), Replied(JObj(fields)));
      var products := Get(fields, "products", JArr([]));
      var services := Get(fields, "services", JArr([]));
      && r.JObj? && "products" in r.fields && "services" in r.fields
      && r.fields["products"].JArr? && r.fields["services"].JArr?
      && ExtendsWith(r.fields["products"].items, products.items, web)
      && ExtendsWith(r.fields["services"].items, services.items, web)
      && (forall i | 0 <= i < |web| :: Covered(web[i].s, Lists(r.fields["products"], r.fields["services"])))
      && r.fields["confidence"] == (if Get(fields, "confidence", JStr("low")) == JStr("low")
                                    then JStr(WebConfidence(JArr(web))) else fields["confidence"])
      && r.fields["sources"] == Strs(["gemini_api", "company_website"])
      && (forall k | k in fields && k !in {"products", "services", "confidence", "sources"} :: r.fields[k] == fields[k])
  {
    var products := Get(fields, "products", JArr([]));
    var services := Get(fields, "services", JArr([]));
    MergeOfStringLists(Lists(products, services), web);
    var merged := Merge(Lists(products, services), web).value;
    var confidence := WebConfidence(JArr(web));
    assert confidence in ["medium", "high"];
    var listed := fields["products" := merged.products]["services" := merged.services];
    var adjusted := if Get(listed, "confidence", JStr("low")) == JStr("low") then listed["confidence" := JStr(confidence)]
                    else listed;
    assert AdjustConfidence(JObj(listed), confidence) == Ok(JObj(adjusted));
    var r := adjusted["sources" := Strs(["gemini_api", "company_website"])];
    assert Attempt(Replied(JObj(fields)), JArr(web)) == Ok(JObj(r));
    assert ProductsAndServices(JArr(web), Replied(JObj(fields))) == JObj(r);
    assert r["products"] == merged.products && r["services"] == merged.services;
  }

  /** A website product that is not a string (`.lower()` of line 59 raises) sends even a
      well-formed reply to the handler: the answer is the website's products as they
      are, with the website's confidence and the note. */
  lemma NonStringProductFallsBack(fields: map<string, Json>, web: seq<Json>)
    requires !AllStrings(web)
    requires StringList(Get(fields, "products", JArr([]))) && StringList(Get(fields, "services", JArr([])))
    ensures ProductsAndServices(JArr(web), Replied(JObj(fields))) ==
      JObj(map["products" := JArr(web), "services" := JArr([]), "confidence" := JStr(WebConfidence(JArr(web))),
               "sources" := Strs(["company_website"]), "note" := JStr(ApiErrorNote)])
  {
    MergeRaisesOnNonString(Lists(Get(fields, "products", JArr([])), Get(fields, "services", JArr([]))), web);
  }

  /** Lines 52-82 once the reply has arrived and there are website products: `result` is
      read, its lists merged, and its fields set one after the other. */
  method MergeIntoReply(result: Json, web: Json, webConfidence: string) returns (r: Result<Json>)
    requires Truthy(web) && webConfidence == WebConfidence(web)
    ensures r == Attempt(Replied(result), web)
  {
    if !result.JObj? {
      return Raised(NoAttribute(result, "get"));
    }
    var products := Get(result.fields, "products", JArr([]));
    var services := Get(result.fields, "services", JArr([]));
    var items :- Iterate(web);
    var merged :- MergeWebProducts(products, services, items);
    var fields := result.fields["products" := merged.products]["services" := merged.services];
    if Get(fields, "confidence", JStr("low")) == JStr("low") && webConfidence in ["medium", "high"] {
      fields := fields["confidence" := JStr(webConfidence)];
    }
    fields := fields["sources" := Strs(["gemini_api", "company_website"])];
    return Ok(JObj(fields));
  }

  /** Lines 48-93 once the model has answered or raised. */
  method Respond(web: Json, webConfidence: string, reply: Reply) returns (r: Json)
    requires webConfidence == WebConfidence(web)
    ensures r == ProductsAndServices(web, reply)
  {
    var outcome: Result<Json>;
    if reply.Failed? {
      outcome := Raised(reply.message);
    } else if !Truthy(web) {
      outcome := Ok(reply.value);
    } else {
      outcome := MergeIntoReply(reply.value, web, webConfidence);
    }
    if outcome.Ok? {
      return outcome.value;
    }
    if Truthy(web) {
      r := JObj(map["products" := web, "services" := JArr([]), "confidence" := JStr(webConfidence),
                    "sources" := Strs(["company_website"]), "note" := JStr(ApiErrorNote)]);
    } else {
      r := JObj(map["error" := JStr(outcome.message), "products" := JArr([]), "services" := JArr([]),
                    "confidence" := JStr("low")]);
    }
  }

  /** Lines 13-93, with `web_products` and `web_confidence` reassigned as the scraper's
      answer allows. */
  method GetProductsServices(companyName: string, websiteInfo: Option<Json>, model: string -> Reply)
    returns (r: Json)
    ensures r == ProductsAndServices(WebProducts(websiteInfo), model(Prompt(companyName)))
  {
    var webProducts := JArr([]);
    var webConfidence := "low";
    if websiteInfo.Some? && websiteInfo.value.JObj? {
      webProducts := Get(websiteInfo.value.fields, "products_services", JArr([]));
      if Truthy(webProducts) {
        webConfidence := "medium";
        var n := Len(webProducts);
        if n.Ok? && n.value > 3 {
          webConfidence := "high";
        }
      }
    }
    r := Respond(webProducts, webConfidence, model(Prompt(companyName)));
  }
}
