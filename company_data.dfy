/**
  * `CompanyDataExtractor.get_company_data`: the model's record about a company, with the
  * company website's name, description, address, products, social media and contact
  * details laid over it when the scraper found the website. The website's record and the
  * model's client are parameters.
  */
module CompanyData {
  import opened Text
  import opened JsonValue
  import opened PyObject

  /** The fields the website's values replace when they are truthy (lines 63-70). */
  const Overridden: seq<string> := ["company_name", "description", "website"]

  /** Lines 24-31: `website_data` once the scraper has answered. `websiteInfo` is the
      scraper's `website_info`, `None` when there is no scraper, when it raises, or when it
      found no website (`website_data` stays `{}`). A dict gains the `data_available`
      marker; any other value stays bound, because the item assignment of line 31 raises
      after line 30 and line 33 swallows that. */
  function WebsiteData(websiteInfo: Option<Json>): (r: Option<Json>)
    ensures r.None? <==> websiteInfo.None?
    ensures r.Some? && r.value.JObj? ==>
              websiteInfo.value.JObj? && r.value.fields == websiteInfo.value.fields["data_available" := JBool(true)]
    ensures r.Some? && !r.value.JObj? ==> r == websiteInfo
  {
    match websiteInfo
    case None => None
    case Some(JObj(m)) => Some(JObj(m["data_available" := JBool(true)]))
    case Some(w) => Some(w)
  }

  /** The website's record the merge and the fallback see (line 61's
      `data_available` test), when `website_data` is a dict. */
  function WebsiteRecord(websiteInfo: Option<Json>): Option<map<string, Json>>
    requires websiteInfo.None? || websiteInfo.value.JObj?
  {
    if websiteInfo.Some? then Some(websiteInfo.value.fields["data_available" := JBool(true)]) else None
  }

  /* ---------------------------------------------------------- products */

  /** Lines 77-79: each website product not yet in the list is appended to it. */
  function AddMissing(api: Json, web: seq<Json>): Result<Json>
    decreases |web|
  {
    if web == [] then Ok(api)
    else
      var present :- In(web[0], api);
      var next :- if present then Ok(api) else Append(api, web[0]);
      AddMissing(next, web[1..])
  }

  /** No item of the list is `==` to a later one. */
  predicate PyDistinct(xs: seq<Json>)
  {
    forall i, j | 0 <= i < j < |xs| :: !PyEq(xs[i], xs[j])
  }

  /** On a list the merge never raises: the list's own items stay first and in order,
      every website product is then `in` it, nothing else is added, and a list without
      equal items gets none. */
  lemma {:induction false} AddMissingToList(api: seq<Json>, web: seq<Json>)
    ensures AddMissing(JArr(api), web).Ok?
    ensures var r := AddMissing(JArr(api), web).value;
      && r.JArr? && |api| <= |r.items| && r.items[..|api|] == api
      && (forall p | p in web :: PyIn(p, r.items))
      && (forall p | p in r.items :: p in api || p in web)
      && (PyDistinct(api) ==> PyDistinct(r.items))
    decreases |web|
  {
    if web != [] {
      var next := if PyIn(web[0], api) then api else api + [web[0]];
      assert AddMissing(JArr(api), web) == AddMissing(JArr(next), web[1..]);
      AddMissingToList(next, web[1..]);
      var r := AddMissing(JArr(api), web).value;
      assert r.items[..|api|] == r.items[..|next|][..|api|];
      assert r.items[..|next|] == next;
      assert PyIn(web[0], r.items) by {
        if !PyIn(web[0], api) {
          PyEqReflexive(web[0]);
          assert PyEq(next[|api|], web[0]);
        }
        var i :| 0 <= i < |next| && PyEq(next[i], web[0]);
        assert r.items[i] == next[i];
      }
      forall p | p in web ensures PyIn(p, r.items) {
        if p != web[0] {
          assert p in web[1..];
        }
      }
      if PyDistinct(api) {
        assert PyDistinct(next);
      }
    }
  }

  /** `1 in [True]` holds in Python, so the website's `1` is not added to `[True]`. */
  lemma EqualItemNotAdded()
    ensures AddMissing(JArr([JBool(true)]), [JNum(1)]) == Ok(JArr([JBool(true)]))
  {
    assert PyEq([JBool(true)][0], JNum(1));
  }

  /** Lines 76-79 with the list as a value. */
  method AddMissingProducts(api: Json, web: seq<Json>) returns (r: Result<Json>)
    ensures r == AddMissing(api, web)
  {
    var products := api;
    for k := 0 to |web|
      invariant AddMissing(products, web[k..]) == AddMissing(api, web)
    {
      assert web[k..][0] == web[k] && web[k..][1..] == web[k + 1..];
      var present :- In(web[k], products);
      if !present {
        products :- Append(products, web[k]);
      }
    }
    return Ok(products);
  }

  /* ----------------------------------------------------------- the merge */

  /** Lines 63-70 and 87-88: one field the website's value replaces when it is truthy. */
  function OverrideField(fields: map<string, Json>, wd: map<string, Json>, k: string): map<string, Json>
  {
    if Truthy(Get(wd, k, JNull)) then fields[k := wd[k]] else fields
  }

  /** Lines 63-70. */
  function Named(fields: map<string, Json>, wd: map<string, Json>): map<string, Json>
  {
    OverrideField(OverrideField(OverrideField(fields, wd, "company_name"), wd, "description"), wd, "website")
  }

  /** Lines 87-91. */
  function Finish(fields: map<string, Json>, wd: map<string, Json>): map<string, Json>
  {
    OverrideField(fields, wd, "contact_info")["data_sources" := Strs(["gemini_api", "company_website"])]
  }

  /** Lines 73-80. */
  function MergeProducts(fields: map<string, Json>, wd: map<string, Json>): Result<map<string, Json>>
  {
    var webProducts := Get(wd, "products_services", JArr([]));
    if !Truthy(webProducts) then Ok(fields)
    else
      var items :- Iterate(webProducts);
      var merged :- AddMissing(Get(fields, "products_services", JArr([])), items);
      Ok(fields["products_services" := merged])
  }

  /** Lines 83-84. */
  function MergeSocial(fields: map<string, Json>, wd: map<string, Json>): Result<map<string, Json>>
  {
    if !Truthy(Get(wd, "social_media", JNull)) then Ok(fields)
    else
      var social :- MergeMappings(Get(fields, "social_media", JObj(map[])), Get(wd, "social_media", JObj(map[])));
      Ok(fields["social_media" := social])
  }

  /** The message of the first operation on a reply that is not a dict: the first truthy
      website field decides whether that operation is an assignment (lines 64, 67, 70, 88
      or 91) or a `get` (lines 75 and 84). */
  function FirstUseError(result: Json, wd: map<string, Json>): string
  {
    if Truthy(Get(wd, "company_name", JNull)) || Truthy(Get(wd, "description", JNull)) || Truthy(Get(wd, "website", JNull))
    then ItemAssignmentError(result)
    else if Truthy(Get(wd, "products_services", JArr([]))) || Truthy(Get(wd, "social_media", JNull))
    then NoAttribute(result, "get")
    else ItemAssignmentError(result)
  }

  /** Lines 61-91 with website data present. */
  function WebsiteMerge(result: Json, wd: map<string, Json>): Result<Json>
  {
    if !result.JObj? then Raised(FirstUseError(result, wd))
    else
      var withProducts :- MergeProducts(Named(result.fields, wd), wd);
      var withSocial :- MergeSocial(withProducts, wd);
      Ok(JObj(Finish(withSocial, wd)))
  }

  /** Lines 57-95: the body of the `try`. */
  function Attempt(reply: Reply, website: Option<map<string, Json>>): Result<Json>
  {
    match reply
    case Failed(m) => Raised(m)
    case Replied(result) =>
      if website.None? then SetField(result, "data_sources", Strs(["gemini_api"]))
      else WebsiteMerge(result, website.value)
  }

  /** Lines 97-117. */
  function Fallback(companyName: string, website: Option<map<string, Json>>, message: string): Json
  {
    if website.Some? then
      var wd := website.value;
      JObj(map[
        "company_name" := Get(wd, "company_name", JStr(companyName)),
        "exists" := JBool(true),
        "description" := Get(wd, "description", JStr("")),
        "website" := Get(wd, "website", JStr("")),
        "products_services" := Get(wd, "products_services", JArr([])),
        "social_media" := Get(wd, "social_media", JObj(map[])),
        "contact_info" := Get(wd, "contact_info", JObj(map[])),
        "data_confidence" := JStr("medium"),
        "data_sources" := Strs(["company_website"]),
        "api_error" := JStr(message)])
    else
      JObj(map["company_name" := JStr(companyName), "error" := JStr(message), "data_confidence" := JStr("low")])
  }

  /** `get_company_data(company_name)`. A `website_data` that is not a dict fails its
      `.get` on line 61, inside the `try`, and again on line 100, inside the handler, so
      that second `AttributeError` leaves the method; otherwise nothing raises. */
  function CompanyRecord(companyName: string, websiteInfo: Option<Json>, reply: Reply): Result<Json>
  {
    var data := WebsiteData(websiteInfo);
    if data.Some? && !data.value.JObj? then
      Raised(NoAttribute(data.value, "get"))
    else
      var website := WebsiteRecord(websiteInfo);
      match Attempt(reply, website)
      case Ok(result) => Ok(result)
      case Raised(m) => Ok(Fallback(companyName, website, m))
  }

  /** Lines 35-55. */
  function Prompt(companyName: string): string
  {
    "\n        Perform comprehensive research on the company \"" + companyName + PromptRest()
  }

  /** Lines 35-55 after the company's name. */
  function PromptRest(): string
  {
    Join("\n", PromptRestLines)
  }

  /** The lines of the question after the company name, each indented as in the source. */
  const PromptRestLines: seq<string> := [
    "\" and provide the following information in JSON format:",
    "        ",
    "        1. \"company_name\": Full official name of the company",
    "        2. \"exists\": Whether this is a real company (true/false/unclear)",
    "        3. \"description\": Brief description of what the company does",
    "        4. \"industry\": Primary industry",
    "        5. \"founding_year\": When it was founded (if available)",
    "        6. \"headquarters\": Location of headquarters",
    "        7. \"products_services\": List of main products and services",
    "        8. \"key_people\": List of key executives (if available)",
    "        9. \"competitors\": Major competitors (if available)",
    "        10. \"website\": Official website URL (if available)",
    "        11. \"social_media\": Known social media presence",
    "        12. \"public_company\": Whether it's publicly traded",
    "        13. \"stock_symbol\": Stock symbol if public",
    "        14. \"estimated_size\": Approximate company size if known",
    "        15. \"data_confidence\": Your confidence in this data (high/medium/low)",
    "        ",
    "        Include only factual information. If certain information isn't available, use null values.",
    "        "]

  /* ------------------------------------------------------------ lemmas */

  /** Without website data the model's dict comes back with only `data_sources` added. */
  lemma NoWebsiteTagsModelOnly(companyName: string, fields: map<string, Json>)
    ensures CompanyRecord(companyName, None, Replied(JObj(fields))) == Ok(JObj(fields["data_sources" := Strs(["gemini_api"])]))
  {
  }

  /** The record raises exactly when the scraper's `website_info` is not a dict, and then
      with the `AttributeError` of `.get` on that value. */
  lemma RaisesOnlyOnNonDictWebsite(companyName: string, websiteInfo: Option<Json>, reply: Reply)
    ensures var r := CompanyRecord(companyName, websiteInfo, reply);
      && (r.Raised? <==> websiteInfo.Some? && !websiteInfo.value.JObj?)
      && (r.Raised? ==> r.message == NoAttribute(websiteInfo.value, "get"))
  {
    if websiteInfo.None? || websiteInfo.value.JObj? {
      var website := WebsiteRecord(websiteInfo);
      match Attempt(reply, website)
      case Ok(_) =>
      case Raised(_) =>
    }
  }

  /** A website record the merge goes through on: its products, if any, a list; its
      social media, if any, a dict, and so is the model's. */
  predicate Mergeable(fields: map<string, Json>, wd: map<string, Json>)
  {
    && (Truthy(Get(wd, "products_services", JArr([]))) ==>
          Get(wd, "products_services", JArr([])).JArr? && Get(fields, "products_services", JArr([])).JArr?)
    && (Truthy(Get(wd, "social_media", JNull)) ==>
          Get(wd, "social_media", JObj(map[])).JObj? && Get(fields, "social_media", JObj(map[])).JObj?)
  }

  /** The keys the merge may write. */
  const Written: set<string> :=
    {"company_name", "description", "website", "products_services", "social_media", "contact_info", "data_sources"}

  /** The website's name, description, address and contact details replace the model's
      when they are truthy; otherwise the model's stay as they were. */
  predicate Overrides(r: map<string, Json>, fields: map<string, Json>, wd: map<string, Json>)
  {
    forall k | k in Overridden + ["contact_info"] ::
      (Truthy(Get(wd, k, JNull)) ==> k in r && r[k] == wd[k])
      && (!Truthy(Get(wd, k, JNull)) ==> Get(r, k, JNull) == Get(fields, k, JNull))
  }

  /** The model's products stay first and in order, the website's are all added, and
      nothing else is. */
  predicate ProductsMerged(r: map<string, Json>, fields: map<string, Json>, wd: map<string, Json>)
    requires Mergeable(fields, wd)
  {
    && (Truthy(Get(wd, "products_services", JArr([]))) ==>
          var api := Get(fields, "products_services", JArr([])).items;
          var web := wd["products_services"].items;
          && "products_services" in r && r["products_services"].JArr?
          && |api| <= |r["products_services"].items| && r["products_services"].items[..|api|] == api
          && (forall p | p in web :: PyIn(p, r["products_services"].items))
          && (forall p | p in r["products_services"].items :: p in api || p in web))
    && (!Truthy(Get(wd, "products_services", JArr([]))) ==>
          Get(r, "products_services", JNull) == Get(fields, "products_services", JNull))
  }

  /** The social media are the union of both, the website's winning. */
  predicate SocialMerged(r: map<string, Json>, fields: map<string, Json>, wd: map<string, Json>)
    requires Mergeable(fields, wd)
  {
    && (Truthy(Get(wd, "social_media", JNull)) ==>
          "social_media" in r
          && r["social_media"] == JObj(Get(fields, "social_media", JObj(map[])).fields + wd["social_media"].fields))
    && (!Truthy(Get(wd, "social_media", JNull)) ==>
          Get(r, "social_media", JNull) == Get(fields, "social_media", JNull))
  }

  /** Every field the merge does not write is kept, and none is made up. */
  predicate OthersKept(r: map<string, Json>, fields: map<string, Json>)
  {
    && (forall k | k in fields && k !in Written :: k in r && r[k] == fields[k])
    && (forall k | k in r && k !in Written :: k in fields)
  }

  /** What the merge promises about the dict it returns. */
  predicate MergedFrom(r: map<string, Json>, fields: map<string, Json>, wd: map<string, Json>)
    requires Mergeable(fields, wd)
  {
    && Overrides(r, fields, wd)
    && ProductsMerged(r, fields, wd)
    && SocialMerged(r, fields, wd)
    && "data_sources" in r && r["data_sources"] == Strs(["gemini_api", "company_website"])
    && OthersKept(r, fields)
  }

  lemma MergeProductsOk(fields: map<string, Json>, wd: map<string, Json>)
    requires Mergeable(fields, wd)
    ensures MergeProducts(fields, wd).Ok?
    ensures var m := MergeProducts(fields, wd).value;
      && m.Keys <= fields.Keys + {"products_services"}
      && (forall k | k in fields && k != "products_services" :: k in m && m[k] == fields[k])
      && (Truthy(Get(wd, "products_services", JArr([]))) ==>
            var api := Get(fields, "products_services", JArr([])).items;
            var web := wd["products_services"].items;
            && "products_services" in m && m["products_services"].JArr?
            && |api| <= |m["products_services"].items| && m["products_services"].items[..|api|] == api
            && (forall p | p in web :: PyIn(p, m["products_services"].items))
            && (forall p | p in m["products_services"].items :: p in api || p in web))
      && (!Truthy(Get(wd, "products_services", JArr([]))) ==> m == fields)
  {
    var webProducts := Get(wd, "products_services", JArr([]));
    if Truthy(webProducts) {
      AddMissingToList(Get(fields, "products_services", JArr([])).items, webProducts.items);
    }
  }

  lemma MergeSocialOk(fields: map<string, Json>, wd: map<string, Json>)
    requires Mergeable(fields, wd)
    ensures MergeSocial(fields, wd).Ok?
    ensures var m := MergeSocial(fields, wd).value;
      && m.Keys <= fields.Keys + {"social_media"}
      && (forall k | k in fields && k != "social_media" :: k in m && m[k] == fields[k])
      && (Truthy(Get(wd, "social_media", JNull)) ==>
            "social_media" in m
            && m["social_media"] == JObj(Get(fields, "social_media", JObj(map[])).fields + wd["social_media"].fields))
      && (!Truthy(Get(wd, "social_media", JNull)) ==> m == fields)
  {
  }

  /** The steps of the merge after the name, description and address were set. */
  predicate Steps(fields: map<string, Json>, wd: map<string, Json>, withProducts: map<string, Json>, withSocial: map<string, Json>)
  {
    MergeProducts(Named(fields, wd), wd) == Ok(withProducts) && MergeSocial(withProducts, wd) == Ok(withSocial)
  }

  lemma NamedKeeps(fields: map<string, Json>, wd: map<string, Json>)
    ensures Mergeable(fields, wd) ==> Mergeable(Named(fields, wd), wd)
    ensures forall k | k !in Overridden :: Get(Named(fields, wd), k, JNull) == Get(fields, k, JNull)
    ensures forall k | k in Overridden ::
      (Truthy(Get(wd, k, JNull)) ==> k in Named(fields, wd) && Named(fields, wd)[k] == wd[k])
      && (!Truthy(Get(wd, k, JNull)) ==> Get(Named(fields, wd), k, JNull) == Get(fields, k, JNull))
    ensures forall k | k in Named(fields, wd) && k !in Overridden :: k in fields
    ensures forall k | k in fields :: k in Named(fields, wd)
  {
  }

  /** The products and social-media steps change nothing but their own key. */
  lemma StepsKeepOthers(fields: map<string, Json>, wd: map<string, Json>, withProducts: map<string, Json>, withSocial: map<string, Json>)
    requires Mergeable(fields, wd) && Steps(fields, wd, withProducts, withSocial)
    ensures forall k | k != "products_services" && k != "social_media" ::
      Get(withSocial, k, JNull) == Get(Named(fields, wd), k, JNull)
  {
    NamedKeeps(fields, wd);
    MergeProductsOk(Named(fields, wd), wd);
    MergeSocialOk(withProducts, wd);
  }

  lemma OverridesHold(fields: map<string, Json>, wd: map<string, Json>, withProducts: map<string, Json>, withSocial: map<string, Json>)
    requires Mergeable(fields, wd) && Steps(fields, wd, withProducts, withSocial)
    ensures Overrides(Finish(withSocial, wd), fields, wd)
  {
    NamedKeeps(fields, wd);
    StepsKeepOthers(fields, wd, withProducts, withSocial);
    var f := Finish(withSocial, wd);
    forall k | k in Overridden + ["contact_info"]
      ensures (Truthy(Get(wd, k, JNull)) ==> k in f && f[k] == wd[k])
      ensures (!Truthy(Get(wd, k, JNull)) ==> Get(f, k, JNull) == Get(fields, k, JNull))
    {
      assert k in {"company_name", "description", "website", "contact_info"};
      assert Get(withSocial, k, JNull) == Get(Named(fields, wd), k, JNull);
    }
  }

  lemma ProductsHold(fields: map<string, Json>, wd: map<string, Json>, withProducts: map<string, Json>, withSocial: map<string, Json>)
    requires Mergeable(fields, wd) && Steps(fields, wd, withProducts, withSocial)
    ensures ProductsMerged(Finish(withSocial, wd), fields, wd)
  {
    NamedKeeps(fields, wd);
    assert Get(Named(fields, wd), "products_services", JArr([])) == Get(fields, "products_services", JArr([]));
    MergeProductsOk(Named(fields, wd), wd);
    MergeSocialOk(withProducts, wd);
  }

  lemma SocialHold(fields: map<string, Json>, wd: map<string, Json>, withProducts: map<string, Json>, withSocial: map<string, Json>)
    requires Mergeable(fields, wd) && Steps(fields, wd, withProducts, withSocial)
    ensures SocialMerged(Finish(withSocial, wd), fields, wd)
  {
    NamedKeeps(fields, wd);
    assert Get(Named(fields, wd), "social_media", JObj(map[])) == Get(fields, "social_media", JObj(map[]));
    MergeProductsOk(Named(fields, wd), wd);
    assert Get(withProducts, "social_media", JObj(map[])) == Get(fields, "social_media", JObj(map[]));
    MergeSocialOk(withProducts, wd);
  }

  lemma OthersHold(fields: map<string, Json>, wd: map<string, Json>, withProducts: map<string, Json>, withSocial: map<string, Json>)
    requires Mergeable(fields, wd) && Steps(fields, wd, withProducts, withSocial)
    ensures OthersKept(Finish(withSocial, wd), fields)
  {
    NamedKeeps(fields, wd);
    MergeProductsOk(Named(fields, wd), wd);
    MergeSocialOk(withProducts, wd);
  }

  /** On a dict reply and a mergeable website record the merge never raises and yields
      a dict `MergedFrom` the two. */
  lemma MergeOfMappings(fields: map<string, Json>, wd: map<string, Json>)
    requires Mergeable(fields, wd)
    ensures WebsiteMerge(JObj(fields), wd).Ok?
    ensures var r := WebsiteMerge(JObj(fields), wd).value; r.JObj? && MergedFrom(r.fields, fields, wd)
  {
    NamedKeeps(fields, wd);
    MergeProductsOk(Named(fields, wd), wd);
    var withProducts := MergeProducts(Named(fields, wd), wd).value;
    assert Get(withProducts, "social_media", JObj(map[])) == Get(fields, "social_media", JObj(map[]));
    MergeSocialOk(withProducts, wd);
    var withSocial := MergeSocial(withProducts, wd).value;
    assert WebsiteMerge(JObj(fields), wd) == Ok(JObj(Finish(withSocial, wd)));
    OverridesHold(fields, wd, withProducts, withSocial);
    ProductsHold(fields, wd, withProducts, withSocial);
    SocialHold(fields, wd, withProducts, withSocial);
    OthersHold(fields, wd, withProducts, withSocial);
  }

  /** With website data the website's name, description, address and contact details
      replace the model's exactly when they are truthy; the products keep the model's first
      and in order and gain the website's, and nothing else; the social media are the union
      with the website winning; both sources are named; every other field of the model's
      reply is kept. */
  lemma WebsiteWins(companyName: string, fields: map<string, Json>, wd: map<string, Json>)
    requires Mergeable(fields, wd)
    ensures var r := CompanyRecord(companyName, Some(JObj(wd)), Replied(JObj(fields)));
      r.Ok? && r.value.JObj? && MergedFrom(r.value.fields, fields, wd)
  {
    var website := wd["data_available" := JBool(true)];
    assert WebsiteRecord(Some(JObj(wd))) == Some(website);
    assert Mergeable(fields, website) by {
      assert Get(website, "products_services", JArr([])) == Get(wd, "products_services", JArr([]));
      assert Get(website, "social_media", JNull) == Get(wd, "social_media", JNull);
      assert Get(website, "social_media", JObj(map[])) == Get(wd, "social_media", JObj(map[]));
    }
    MergeOfMappings(fields, website);
  }

  /** The handler's record from a website dict marked by lines 30-31: each field is the
      website's or the default of lines 102-108, whatever the marker added. */
  lemma WebsiteFallbackFields(companyName: string, wd: map<string, Json>, message: string)
    ensures Fallback(companyName, Some(wd["data_available" := JBool(true)]), message) ==
      JObj(map[
        "company_name" := Get(wd, "company_name", JStr(companyName)),
        "exists" := JBool(true),
        "description" := Get(wd, "description", JStr("")),
        "website" := Get(wd, "website", JStr("")),
        "products_services" := Get(wd, "products_services", JArr([])),
        "social_media" := Get(wd, "social_media", JObj(map[])),
        "contact_info" := Get(wd, "contact_info", JObj(map[])),
        "data_confidence" := JStr("medium"),
        "data_sources" := Strs(["company_website"]),
        "api_error" := JStr(message)])
  {
    var marked := wd["data_available" := JBool(true)];
    forall k | k in Overridden + ["products_services", "social_media", "contact_info"]
      ensures forall d :: Get(marked, k, d) == Get(wd, k, d)
    {
      assert k != "data_available";
    }
  }

  /** When the model fails, website data still makes an answer: the company exists, with
      "medium" confidence, from the website alone, each of its other fields the website's
      or the default of lines 102-108; without it the answer is an error record with
      "low" confidence. */
  lemma ClientFailureFallback(companyName: string, wd: Option<map<string, Json>>, message: string)
    ensures var r := CompanyRecord(companyName, if wd.Some? then Some(JObj(wd.value)) else None, Failed(message));
      && r.Ok?
      && (wd.Some? ==> r.value == Fallback(companyName, Some(wd.value["data_available" := JBool(true)]), message))
      && (wd.None? ==> r.value == JObj(map["company_name" := JStr(companyName), "error" := JStr(message),
                                           "data_confidence" := JStr("low")]))
  {
    var info := if wd.Some? then Some(JObj(wd.value)) else None;
    assert CompanyRecord(companyName, info, Failed(message)) == Ok(Fallback(companyName, WebsiteRecord(info), message));
  }

  /** Lines 61-91 field by field on the reply's dict. */
  method MergeWebsite(result: Json, wd: map<string, Json>) returns (r: Result<Json>)
    ensures r == WebsiteMerge(result, wd)
  {
    if !result.JObj? {
      return Raised(FirstUseError(result, wd));
    }
    var fields := result.fields;
    if Truthy(Get(wd, "company_name", JNull)) {
      fields := fields["company_name" := wd["company_name"]];
    }
    if Truthy(Get(wd, "description", JNull)) {
      fields := fields["description" := wd["description"]];
    }
    if Truthy(Get(wd, "website", JNull)) {
      fields := fields["website" := wd["website"]];
    }
    assert fields == Named(result.fields, wd);
    var webProducts := Get(wd, "products_services", JArr([]));
    if Truthy(webProducts) {
      var api := Get(fields, "products_services", JArr([]));
      var items :- Iterate(webProducts);
      var merged :- AddMissingProducts(api, items);
      fields := fields["products_services" := merged];
    }
    assert MergeProducts(Named(result.fields, wd), wd) == Ok(fields);
    ghost var withProducts := fields;
    if Truthy(Get(wd, "social_media", JNull)) {
      var social :- MergeMappings(Get(fields, "social_media", JObj(map[])), Get(wd, "social_media", JObj(map[])));
      fields := fields["social_media" := social];
    }
    assert MergeSocial(withProducts, wd) == Ok(fields);
    ghost var withSocial := fields;
    if Truthy(Get(wd, "contact_info", JNull)) {
      fields := fields["contact_info" := wd["contact_info"]];
    }
    fields := fields["data_sources" := Strs(["gemini_api", "company_website"])];
    assert fields == Finish(withSocial, wd);
    return Ok(JObj(fields));
  }

  /** Lines 57-95 once the model has answered or raised. */
  method TryGenerate(reply: Reply, website: Option<map<string, Json>>) returns (outcome: Result<Json>)
    ensures outcome == Attempt(reply, website)
  {
    if reply.Failed? {
      outcome := Raised(reply.message);
    } else if website.Some? {
      outcome := MergeWebsite(reply.value, website.value);
    } else {
      outcome := SetField(reply.value, "data_sources", Strs(["gemini_api"]));
    }
  }

  /** Lines 24-33 and 57-117 once the model has been asked. */
  method Respond(companyName: string, websiteInfo: Option<Json>, reply: Reply) returns (r: Result<Json>)
    ensures r == CompanyRecord(companyName, websiteInfo, reply)
  {
    var websiteData: Json := JObj(map[]);
    if websiteInfo.Some? {
      websiteData := websiteInfo.value;
      if websiteData.JObj? {
        websiteData := JObj(websiteData.fields["data_available" := JBool(true)]);
      }
    }
    if !websiteData.JObj? {
      return Raised(NoAttribute(websiteData, "get"));
    }
    var website: Option<map<string, Json>> := None;
    if Truthy(Get(websiteData.fields, "data_available", JBool(false))) {
      website := Some(websiteData.fields);
    }
    assert website == WebsiteRecord(websiteInfo);
    var outcome := TryGenerate(reply, website);
    if outcome.Ok? {
      return outcome;
    }
    r := Ok(Fallback(companyName, website, outcome.message));
  }

  /** `get_company_data(company_name)`: the model is asked with the prompt of lines 35-55. */
  method GetCompanyData(companyName: string, websiteInfo: Option<Json>, model: string -> Reply)
    returns (r: Result<Json>)
    ensures r == CompanyRecord(companyName, websiteInfo, model(Prompt(companyName)))
  {
    var reply := model(Prompt(companyName));
    r := Respond(companyName, websiteInfo, reply);
  }
}
