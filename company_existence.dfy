/**
  * `CompanyExistenceChecker.check_company_exists`: a cache lookup, the validation of
  * every supplied domain (relevance only for the valid ones), one question to the
  * generative model, and the merge of the two signals into `exists` and `confidence`.
  * The validators' outside world, the model's client and the clock are parameters.
  */
module CompanyExistence {
  import opened Text
  import opened JsonValue
  import opened PyObject
  import opened DomainValidator
  import opened Cache

  /** The `domains` argument: `None`, one string, or a list of strings. */
  datatype Domains = NoDomains | OneDomain(domain: string) | ManyDomains(list: seq<string>)

  /** What one domain contributes to `domain_validations`. */
  datatype DomainCheck = DomainCheck(validation: Verdict, relevance: Option<Verdict>)

  /** One entry of the dict `domain_validations`, which keeps insertion order. */
  datatype Row = Row(domain: string, check: DomainCheck)

  const Namespace: string := "existence_check"
  const UnclearReason: string := "Could not verify company existence"

  /* ------------------------------------------------------------ the inputs */

  /** Lines 42-45: the cache key wraps a single domain in a list and keeps `None`. */
  function CacheKeyData(companyName: string, domains: Domains): Json
  {
    var ds := match domains
      case NoDomains => JNull
      case OneDomain(d) => Strs([d])
      case ManyDomains(list) => Strs(list);
    JObj(map["company_name" := JStr(companyName), "domains" := ds])
  }

  /** Lines 62-68: the domains to validate. */
  function ListOf(domains: Domains): seq<string>
  {
    match domains
    case NoDomains => []
    case OneDomain(d) => [d]
    case ManyDomains(list) => list
  }

  /** A string domain and the one-element list are the same question, in the cache and
      in the loop; no domains at all and an empty list ask the same but are cached apart. */
  lemma DomainArgumentForms(companyName: string, d: string)
    ensures CacheKeyData(companyName, OneDomain(d)) == CacheKeyData(companyName, ManyDomains([d]))
    ensures ListOf(OneDomain(d)) == ListOf(ManyDomains([d]))
    ensures ListOf(NoDomains) == ListOf(ManyDomains([]))
    ensures CacheKeyData(companyName, NoDomains) != CacheKeyData(companyName, ManyDomains([]))
  {
    assert CacheKeyData(companyName, NoDomains).fields["domains"] == JNull;
  }

  /* ------------------------------------------------------- the domain loop */

  /** Lines 77-94 for one domain. */
  function CheckOf(domain: string, companyName: string, w: World): DomainCheck
  {
    var v := ValidateDomain(domain, w);
    DomainCheck(v, if v.ok then Some(Relevance(domain, companyName, w.split)) else None)
  }

  /** `d[row.domain] = row.check`: a new key goes last, an existing key keeps its place. */
  function Put(rows: seq<Row>, row: Row): (r: seq<Row>)
    ensures |r| == |rows| || |r| == |rows| + 1
  {
    if rows == [] then [row]
    else if rows[0].domain == row.domain then [row] + rows[1..]
    else [rows[0]] + Put(rows[1..], row)
  }

  function Keys(rows: seq<Row>): seq<string>
  {
    seq(|rows|, i requires 0 <= i < |rows| => rows[i].domain)
  }

  /** The check of lines 77-94 as the loop applies it to each domain of one call. */
  function Checker(companyName: string, w: World): string -> DomainCheck
  {
    d => CheckOf(d, companyName, w)
  }

  /** `domain_validations` after the loop over `ds`, each domain checked by `check`. */
  function Validations(ds: seq<string>, check: string -> DomainCheck): seq<Row>
  {
    if ds == [] then []
    else
      var d := ds[|ds| - 1];
      Put(Validations(ds[..|ds| - 1], check), Row(d, check(d)))
  }

  /** The domains in the order they first appear. */
  function FirstOccurrences(ds: seq<string>): seq<string>
  {
    if ds == [] then []
    else
      var p := FirstOccurrences(ds[..|ds| - 1]);
      if ds[|ds| - 1] in p then p else p + [ds[|ds| - 1]]
  }

  predicate Distinct(ds: seq<string>)
  {
    forall i, j | 0 <= i < j < |ds| :: ds[i] != ds[j]
  }

  /** Rows whose checks are what their domains' checks are. */
  predicate Consistent(rows: seq<Row>, check: string -> DomainCheck)
  {
    forall i | 0 <= i < |rows| :: rows[i].check == check(rows[i].domain)
  }

  lemma {:induction false} PutKeys(rows: seq<Row>, row: Row)
    ensures Keys(Put(rows, row)) == if row.domain in Keys(rows) then Keys(rows) else Keys(rows) + [row.domain]
  {
    if rows != [] {
      var tail := rows[1..];
      var ks := Keys(rows);
      assert Keys(tail) == ks[1..];
      assert ks == [rows[0].domain] + ks[1..];
      if rows[0].domain == row.domain {
        var p := [row] + tail;
        assert Put(rows, row) == p;
        assert Keys(p) == ks;
      } else {
        PutKeys(tail, row);
        var q := Put(tail, row);
        var p := [rows[0]] + q;
        assert Put(rows, row) == p;
        assert Keys(p) == [rows[0].domain] + Keys(q);
        assert row.domain in ks <==> row.domain in ks[1..];
      }
    }
  }

  /** `Put` adds `row` and otherwise keeps rows it was given. */
  lemma {:induction false} PutRows(rows: seq<Row>, row: Row)
    ensures forall i | 0 <= i < |Put(rows, row)| ::
      Put(rows, row)[i] == row || Put(rows, row)[i] in rows
    ensures row in Put(rows, row)
  {
    if rows != [] {
      var tail := rows[1..];
      if rows[0].domain == row.domain {
        var p := [row] + tail;
        assert Put(rows, row) == p;
        assert p[0] == row;
        forall i | 1 <= i < |p| ensures p[i] in rows {
          assert p[i] == rows[i];
        }
      } else {
        PutRows(tail, row);
        var q := Put(tail, row);
        var p := [rows[0]] + q;
        assert Put(rows, row) == p;
        assert p[1..] == q;
        forall i | 1 <= i < |p| ensures p[i] == row || p[i] in rows {
          assert p[i] == q[i - 1];
        }
      }
    }
  }

  /** The loop keeps one entry per distinct domain, in order of first appearance, each
      holding that domain's check. */
  lemma {:induction false} ValidationsShape(ds: seq<string>, check: string -> DomainCheck)
    ensures Keys(Validations(ds, check)) == FirstOccurrences(ds)
    ensures Consistent(Validations(ds, check), check)
  {
    if ds != [] {
      var prefix := ds[..|ds| - 1];
      var d := ds[|ds| - 1];
      ValidationsShape(prefix, check);
      var rows := Validations(prefix, check);
      PutKeys(rows, Row(d, check(d)));
      PutRows(rows, Row(d, check(d)));
    }
  }

  lemma {:induction false} FirstOccurrencesMembers(ds: seq<string>)
    ensures forall d :: d in FirstOccurrences(ds) <==> d in ds
    ensures Distinct(FirstOccurrences(ds))
    ensures Distinct(ds) ==> FirstOccurrences(ds) == ds
  {
    if ds != [] {
      var prefix := ds[..|ds| - 1];
      FirstOccurrencesMembers(prefix);
      assert ds == prefix + [ds[|ds| - 1]];
      if Distinct(ds) {
        assert Distinct(prefix);
        assert ds[|ds| - 1] !in prefix;
      }
    }
  }

  /** Every supplied domain gets exactly one entry, and no other domain does. */
  lemma EveryDomainReported(ds: seq<string>, check: string -> DomainCheck)
    ensures forall d :: d in Keys(Validations(ds, check)) <==> d in ds
    ensures Distinct(Keys(Validations(ds, check)))
  {
    ValidationsShape(ds, check);
    FirstOccurrencesMembers(ds);
  }

  /** Relevance is looked at only for a domain that validated. */
  lemma RelevanceOnlyWhenValid(ds: seq<string>, companyName: string, w: World, i: nat)
    requires i < |Validations(ds, Checker(companyName, w))|
    ensures var row := Validations(ds, Checker(companyName, w))[i];
      row.check.validation == ValidateDomain(row.domain, w)
      && (row.check.relevance.Some? <==> row.check.validation.ok)
      && (row.check.relevance.Some? ==> row.check.relevance.value == Relevance(row.domain, companyName, w.split))
  {
    ValidationsShape(ds, Checker(companyName, w));
    var row := Validations(ds, Checker(companyName, w))[i];
    assert row.check == CheckOf(row.domain, companyName, w);
  }

  /** Lines 75-94 with the dict as a list of rows. */
  method ValidateAll(ds: seq<string>, companyName: string, w: World) returns (rows: seq<Row>)
    ensures rows == Validations(ds, Checker(companyName, w))
  {
    rows := [];
    for k := 0 to |ds|
      invariant rows == Validations(ds[..k], Checker(companyName, w))
    {
      var ok, message := CheckDomain(ds[k], w);
      var relevance := None;
      if ok {
        var relevant, relevanceMessage := ValidateDomainRelevance(ds[k], companyName, w.split);
        relevance := Some(Verdict(relevant, relevanceMessage));
      }
      assert ds[..k + 1][..k] == ds[..k];
      assert DomainCheck(Verdict(ok, message), relevance) == Checker(companyName, w)(ds[k]);
      rows := Put(rows, Row(ds[k], DomainCheck(Verdict(ok, message), relevance)));
    }
    assert ds[..|ds|] == ds;
  }

  /* -------------------------------------------------- the domain signal */

  function AnyValid(rows: seq<Row>): bool
  {
    rows != [] && (rows[0].check.validation.ok || AnyValid(rows[1..]))
  }

  /** Lines 144-147: `None` without domains, otherwise whether any validated. */
  function DomainExists(rows: seq<Row>): Option<bool>
  {
    if rows == [] then None else Some(AnyValid(rows))
  }

  /** Lines 170-173. */
  function ValidDomains(rows: seq<Row>): seq<string>
  {
    if rows == [] then []
    else (if rows[0].check.validation.ok then [rows[0].domain] else []) + ValidDomains(rows[1..])
  }

  lemma {:induction false} AnyValidIs(rows: seq<Row>)
    ensures AnyValid(rows) <==> exists i | 0 <= i < |rows| :: rows[i].check.validation.ok
  {
    if rows != [] {
      AnyValidIs(rows[1..]);
      if AnyValid(rows[1..]) {
        var i :| 0 <= i < |rows[1..]| && rows[1..][i].check.validation.ok;
        assert rows[i + 1].check.validation.ok;
      }
      if exists i | 0 <= i < |rows| :: rows[i].check.validation.ok {
        var i :| 0 <= i < |rows| && rows[i].check.validation.ok;
        if i > 0 {
          assert rows[1..][i - 1].check.validation.ok;
        }
      }
    }
  }

  lemma {:induction false} ValidDomainsAre(rows: seq<Row>)
    ensures forall d :: d in ValidDomains(rows) <==> exists i | 0 <= i < |rows| :: rows[i].domain == d && rows[i].check.validation.ok
    ensures Distinct(Keys(rows)) ==> Distinct(ValidDomains(rows))
  {
    if rows != [] {
      ValidDomainsAre(rows[1..]);
      var head := if rows[0].check.validation.ok then [rows[0].domain] else [];
      forall d ensures d in ValidDomains(rows) <==> exists i | 0 <= i < |rows| :: rows[i].domain == d && rows[i].check.validation.ok {
        if d in ValidDomains(rows[1..]) {
          var i :| 0 <= i < |rows[1..]| && rows[1..][i].domain == d && rows[1..][i].check.validation.ok;
          assert rows[i + 1].domain == d;
        }
        if exists i | 0 <= i < |rows| :: rows[i].domain == d && rows[i].check.validation.ok {
          var i :| 0 <= i < |rows| && rows[i].domain == d && rows[i].check.validation.ok;
          if i > 0 {
            assert rows[1..][i - 1].domain == d;
          }
        }
      }
      if Distinct(Keys(rows)) {
        assert Keys(rows[1..]) == Keys(rows)[1..];
        assert Distinct(Keys(rows[1..]));
        forall i | 0 <= i < |rows| - 1 ensures rows[1..][i].domain != rows[0].domain {
          assert Keys(rows)[0] != Keys(rows)[i + 1];
        }
        var tail := ValidDomains(rows[1..]);
        var all := ValidDomains(rows);
        if rows[0].check.validation.ok {
          assert rows[0].domain !in tail;
          assert all == [rows[0].domain] + tail;
          forall i, j | 0 <= i < j < |all| ensures all[i] != all[j] {
            assert all[j] == tail[j - 1];
            if i > 0 {
              assert all[i] == tail[i - 1];
            } else {
              assert tail[j - 1] in tail;
            }
          }
        }
      }
    }
  }

  /** `domain_exists` over rows that hold every domain of `ds`, each with its own check. */
  lemma DomainExistsOfRows(rows: seq<Row>, ds: seq<string>, check: string -> DomainCheck)
    requires forall d :: d in Keys(rows) <==> d in ds
    requires Consistent(rows, check)
    ensures DomainExists(rows).None? <==> ds == []
    ensures ds != [] ==> (DomainExists(rows) == Some(true) <==> exists d | d in ds :: check(d).validation.ok)
  {
    AnyValidIs(rows);
    if ds != [] {
      assert ds[0] in Keys(rows);
    }
    if rows != [] {
      assert Keys(rows)[0] in ds;
    }
    if exists d | d in ds :: check(d).validation.ok {
      var d :| d in ds && check(d).validation.ok;
      assert d in Keys(rows);
      var i :| 0 <= i < |rows| && Keys(rows)[i] == d;
      assert rows[i].check.validation.ok;
    }
    if AnyValid(rows) {
      var i :| 0 <= i < |rows| && rows[i].check.validation.ok;
      assert Keys(rows)[i] in ds;
    }
  }

  /** Each domain's validation in the loop is `validate_domain`'s verdict. */
  lemma CheckerValidates(companyName: string, w: World, d: string)
    ensures Checker(companyName, w)(d).validation == ValidateDomain(d, w)
  {
  }

  /** `domain_exists` is `None` exactly without domains, and otherwise says whether some
      supplied domain validates. */
  lemma DomainExistsMeans(ds: seq<string>, companyName: string, w: World)
    ensures DomainExists(Validations(ds, Checker(companyName, w))).None? <==> ds == []
    ensures ds != [] ==> (DomainExists(Validations(ds, Checker(companyName, w))) == Some(true)
                          <==> exists d | d in ds :: ValidateDomain(d, w).ok)
  {
    var check := Checker(companyName, w);
    EveryDomainReported(ds, check);
    ValidationsShape(ds, check);
    DomainExistsOfRows(Validations(ds, check), ds, check);
    if exists d | d in ds :: ValidateDomain(d, w).ok {
      var d :| d in ds && ValidateDomain(d, w).ok;
      CheckerValidates(companyName, w, d);
    }
    if exists d | d in ds :: check(d).validation.ok {
      var d :| d in ds && check(d).validation.ok;
      CheckerValidates(companyName, w, d);
    }
  }

  /** `valid_domains` over rows that hold every domain of `ds` once, each with its own check. */
  lemma ValidDomainsOfRows(rows: seq<Row>, ds: seq<string>, check: string -> DomainCheck)
    requires forall d :: d in Keys(rows) <==> d in ds
    requires Distinct(Keys(rows))
    requires Consistent(rows, check)
    ensures forall d :: d in ValidDomains(rows) <==> d in ds && check(d).validation.ok
    ensures Distinct(ValidDomains(rows))
  {
    ValidDomainsAre(rows);
    forall d | d in ds && check(d).validation.ok ensures d in ValidDomains(rows) {
      assert d in Keys(rows);
      var i :| 0 <= i < |rows| && Keys(rows)[i] == d;
      assert rows[i].domain == d && rows[i].check.validation.ok;
    }
    forall d | d in ValidDomains(rows) ensures d in ds && check(d).validation.ok {
      var i :| 0 <= i < |rows| && rows[i].domain == d && rows[i].check.validation.ok;
      assert Keys(rows)[i] == d;
    }
  }

  /** The domains of `ds` whose check validates, in the order of `ds`. */
  function ValidOf(ds: seq<string>, check: string -> DomainCheck): seq<string>
  {
    if ds == [] then []
    else (if check(ds[0]).validation.ok then [ds[0]] else []) + ValidOf(ds[1..], check)
  }

  /** Walking the rows keeps their order: `valid_domains` is the filter of the row keys. */
  lemma {:induction false} ValidDomainsFilter(rows: seq<Row>, check: string -> DomainCheck)
    requires Consistent(rows, check)
    ensures ValidDomains(rows) == ValidOf(Keys(rows), check)
  {
    if rows != [] {
      assert Keys(rows[1..]) == Keys(rows)[1..];
      assert Consistent(rows[1..], check) by {
        forall i | 0 <= i < |rows| - 1 ensures rows[1..][i].check == check(rows[1..][i].domain) {
          assert rows[1..][i] == rows[i + 1];
        }
      }
      ValidDomainsFilter(rows[1..], check);
    }
  }

  /** `valid_domains` lists each supplied domain that validates, once, and nothing else. */
  lemma ValidDomainsMeans(ds: seq<string>, companyName: string, w: World)
    ensures forall d :: d in ValidDomains(Validations(ds, Checker(companyName, w))) <==> d in ds && ValidateDomain(d, w).ok
    ensures Distinct(ValidDomains(Validations(ds, Checker(companyName, w))))
    ensures Distinct(ds) ==> Keys(Validations(ds, Checker(companyName, w))) == ds
  {
    var check := Checker(companyName, w);
    EveryDomainReported(ds, check);
    ValidationsShape(ds, check);
    FirstOccurrencesMembers(ds);
    ValidDomainsOfRows(Validations(ds, check), ds, check);
    forall d ensures check(d).validation.ok == ValidateDomain(d, w).ok {
      CheckerValidates(companyName, w, d);
    }
  }

  /** `valid_domains` keeps the order in which the domains first appear. */
  lemma ValidDomainsInOrder(ds: seq<string>, companyName: string, w: World)
    ensures ValidDomains(Validations(ds, Checker(companyName, w)))
      == ValidOf(FirstOccurrences(ds), Checker(companyName, w))
  {
    var check := Checker(companyName, w);
    ValidationsShape(ds, check);
    ValidDomainsFilter(Validations(ds, check), check);
  }

  /* ------------------------------------------------- the model's signal */

  /** Line 103: the question up to the company's name. */
  function PromptHead(): string
  {
    "\n            Analyze if the company \""
  }

  /** Line 103. */
  function DomainInfo(ds: seq<string>): string
  {
    if ds != [] then "with domains: " + Join(", ", ds) else "without any provided domains"
  }

  /** Lines 103-118. */
  function Prompt(companyName: string, ds: seq<string>): string
  {
    PromptHead() + companyName + "\" exists " + DomainInfo(ds) + PromptTail()
  }

  /** Lines 103-118: what the question asks for after the domains. */
  function PromptTail(): string
  {
    Join("\n", PromptTailLines)
  }

  /** The lines of the question after the domains, each indented as in the source. */
  const PromptTailLines: seq<string> := [
    ".",
    "",
    "            Look for these aspects:",
    "            1. Company existence verification",
    "            2. Industry identification",
    "            3. Business legitimacy assessment",
    "            ",
    "            Respond in this exact JSON format:",
    "            {",
    "                \"exists\": \"Yes/No/Unclear\",",
    "                \"reason\": \"Brief explanation of your conclusion\",",
    "                \"industry\": \"Industry name if known, or null\"",
    "            }",
    "            "]

  /** Whatever surrounds them, the name and the domains stay in the question. */
  lemma MentionsBetween(head: string, companyName: string, ds: seq<string>, tail: string)
    ensures Contains(head + companyName + "\" exists " + DomainInfo(ds) + tail, companyName)
    ensures forall d | d in ds :: Contains(head + companyName + "\" exists " + DomainInfo(ds) + tail, d)
  {
    var named := head + companyName;
    var p := named + "\" exists " + DomainInfo(ds) + tail;
    ContainsItself(companyName);
    ContainsInRight(head, companyName, companyName);
    ContainsInLeft(named, "\" exists ", companyName);
    ContainsInLeft(named + "\" exists ", DomainInfo(ds), companyName);
    ContainsInLeft(named + "\" exists " + DomainInfo(ds), tail, companyName);
    forall d | d in ds ensures Contains(p, d) {
      var k :| 0 <= k < |ds| && ds[k] == d;
      JoinContainsParts(", ", ds, k);
      ContainsInRight("with domains: ", Join(", ", ds), d);
      ContainsInRight(named + "\" exists ", DomainInfo(ds), d);
      ContainsInLeft(named + "\" exists " + DomainInfo(ds), tail, d);
    }
  }

  /** The question names the company and every domain. */
  lemma PromptMentions(companyName: string, ds: seq<string>)
    ensures Contains(Prompt(companyName, ds), companyName)
    ensures forall d | d in ds :: Contains(Prompt(companyName, ds), d)
  {
    MentionsBetween(PromptHead(), companyName, ds, PromptTail());
  }

  /** Lines 120-139: what is kept of the model's reply. */
  function Sanitise(reply: Reply): (r: Json)
    ensures r.JObj?
  {
    match reply
    case Failed(m) => JObj(map["exists" := JStr("Error"), "reason" := JStr(m), "industry" := JNull])
    case Replied(j) =>
      if !j.JObj? || "error" in j.fields
      then JObj(map["exists" := JStr("Unclear"), "reason" := JStr(UnclearReason), "industry" := JNull])
      else j
  }

  /** Lines 149-154: `gemini_exists`; `.lower()` of a truthy non-string raises. */
  function ModelExists(response: Json): Result<Option<bool>>
    requires response.JObj?
  {
    var e := Get(response.fields, "exists", JNull);
    if !Truthy(e) then Ok(None)
    else match LowerOf(e)
      case Raised(m) => Raised(m)
      case Ok(answer) => Ok(if answer == "yes" then Some(true) else if answer == "no" then Some(false) else None)
  }

  /** Lines 157-163. */
  function Merge(domainExists: Option<bool>, modelExists: Option<bool>): Option<bool>
  {
    if domainExists.Some? && modelExists.Some? then Some(domainExists.value && modelExists.value)
    else if domainExists.Some? then domainExists
    else modelExists
  }

  /** Line 177. */
  function Confidence(domainExists: Option<bool>, modelExists: Option<bool>): string
  {
    if domainExists == Some(true) && modelExists.Some? then "high"
    else if domainExists == Some(true) || modelExists.Some? then "medium"
    else "low"
  }

  function OptionJson(b: Option<bool>): Json
  {
    if b.Some? then JBool(b.value) else JNull
  }

  function VerdictJson(v: Verdict, okKey: string): Json
  {
    JObj(map[okKey := JBool(v.ok), "status_message" := JStr(v.message)])
  }

  function CheckJson(c: DomainCheck): Json
  {
    JObj(map["validation" := VerdictJson(c.validation, "is_valid"),
             "relevance" := if c.relevance.Some? then VerdictJson(c.relevance.value, "is_relevant") else JNull])
  }

  /** The dict `domain_validations` as a JSON object. */
  function RowsJson(rows: seq<Row>): (r: map<string, Json>)
    ensures r.Keys == set i | 0 <= i < |rows| :: rows[i].domain
  {
    if rows == [] then map[]
    else
      var m := RowsJson(rows[..|rows| - 1]);
      assert forall i | 0 <= i < |rows| - 1 :: rows[..|rows| - 1][i] == rows[i];
      m[rows[|rows| - 1].domain := CheckJson(rows[|rows| - 1].check)]
  }

  /** Lines 165-178. */
  function Report(companyName: string, rows: seq<Row>, response: Json, modelExists: Option<bool>): Json
  {
    var domainExists := DomainExists(rows);
    JObj(map[
      "company_name" := JStr(companyName),
      "domains" := JObj(RowsJson(rows)),
      "domain_validation" := JObj(map["exists" := OptionJson(domainExists), "valid_domains" := Strs(ValidDomains(rows))]),
      "gemini_response" := response,
      "exists" := OptionJson(Merge(domainExists, modelExists)),
      "confidence" := JStr(Confidence(domainExists, modelExists))])
  }

  /** Lines 53-185 without the cache: the report, or the exception re-raised at line 190. */
  function Existence(companyName: string, domains: Domains, w: World, model: string -> Reply): Result<Json>
  {
    var ds := ListOf(domains);
    var rows := Validations(ds, Checker(companyName, w));
    var response := Sanitise(model(Prompt(companyName, ds)));
    match ModelExists(response)
    case Raised(m) => Raised(m)
    case Ok(modelExists) => Ok(Report(companyName, rows, response, modelExists))
  }

  /* ------------------------------------------------------------ lemmas */

  /** A reply that is not a dict, or that carries `"error"`, is replaced by an "Unclear"
      answer; a raising client by an "Error" answer that keeps the message; any other
      dict is kept as it is. */
  lemma SanitisedReplies(reply: Reply)
    ensures reply.Failed? ==>
      Sanitise(reply).fields["exists"] == JStr("Error") && Sanitise(reply).fields["reason"] == JStr(reply.message)
    ensures reply.Replied? && (!reply.value.JObj? || "error" in reply.value.fields) ==>
      Sanitise(reply).fields["exists"] == JStr("Unclear") && Sanitise(reply).fields["industry"] == JNull
    ensures reply.Replied? && reply.value.JObj? && "error" !in reply.value.fields ==> Sanitise(reply) == reply.value
    ensures "error" !in Sanitise(reply).fields
  {
  }

  /** "yes" and "no" in any letter case are the two answers; any other string, a missing
      or falsy `exists` give no answer; a truthy non-string raises. */
  lemma ModelExistsTable(response: Json)
    requires response.JObj?
    ensures var e := Get(response.fields, "exists", JNull);
      && (e.JStr? && Lower(e.s) == "yes" ==> ModelExists(response) == Ok(Some(true)))
      && (e.JStr? && Lower(e.s) == "no" ==> ModelExists(response) == Ok(Some(false)))
      && (e.JStr? && Lower(e.s) != "yes" && Lower(e.s) != "no" ==> ModelExists(response) == Ok(None))
      && (!Truthy(e) ==> ModelExists(response) == Ok(None))
      && (Truthy(e) && !e.JStr? ==> ModelExists(response).Raised?)
  {
    var e := Get(response.fields, "exists", JNull);
    if e.JStr? && e.s == [] {
      assert Lower(e.s) == [];
    }
  }

  /** A raising client never makes the check raise: "Error" is not an answer. */
  lemma FailedClientGivesNoAnswer(message: string)
    ensures ModelExists(Sanitise(Failed(message))) == Ok(None)
  {
    assert Lower("Error") == "error";
  }

  /** `exists` is the conjunction when both signals are there, otherwise whichever is. */
  lemma MergeTable(domainExists: Option<bool>, modelExists: Option<bool>)
    ensures Merge(domainExists, modelExists) == Some(true) <==>
      (domainExists == Some(true) || domainExists.None?) && (modelExists == Some(true) || modelExists.None?)
      && (domainExists.Some? || modelExists.Some?)
    ensures Merge(domainExists, modelExists).None? <==> domainExists.None? && modelExists.None?
  {
  }

  /** "high" exactly when a domain validated and the model gave an answer, "low" exactly
      when no domain validated and the model gave none. */
  lemma ConfidenceLevels(domainExists: Option<bool>, modelExists: Option<bool>)
    ensures Confidence(domainExists, modelExists) == "high" <==> domainExists == Some(true) && modelExists.Some?
    ensures Confidence(domainExists, modelExists) == "low" <==> domainExists != Some(true) && modelExists.None?
    ensures Confidence(domainExists, modelExists) in {"high", "medium", "low"}
  {
  }

  /** A valid domain and the answer "No" give `exists` false with "high" confidence
      (the unit test at tests/test_company_existence.py:106-112 expects "medium"). */
  lemma ValidDomainAndNo(domainExists: Option<bool>)
    requires domainExists == Some(true)
    ensures Merge(domainExists, Some(false)) == Some(false)
    ensures Confidence(domainExists, Some(false)) == "high"
  {
  }

  /** Every supplied domain is a key of `result['domains']`, and `domain_validation`
      reports the two signals. */
  lemma ReportShape(companyName: string, domains: Domains, w: World, model: string -> Reply)
    requires Existence(companyName, domains, w, model).Ok?
    ensures var r := Existence(companyName, domains, w, model).value;
      var rows := Validations(ListOf(domains), Checker(companyName, w));
      && r.JObj? && "domains" in r.fields && r.fields["domains"].JObj?
      && (forall d :: d in r.fields["domains"].fields <==> d in ListOf(domains))
      && "domain_validation" in r.fields
      && r.fields["domain_validation"] == JObj(map["exists" := OptionJson(DomainExists(rows)),
                                                   "valid_domains" := Strs(ValidDomains(rows))])
  {
    var ds := ListOf(domains);
    var rows := Validations(ds, Checker(companyName, w));
    var response := Sanitise(model(Prompt(companyName, ds)));
    var r := Report(companyName, rows, response, ModelExists(response).value);
    assert Existence(companyName, domains, w, model) == Ok(r);
    EveryDomainReported(ds, Checker(companyName, w));
    ReportFields(companyName, rows, response, ModelExists(response).value);
  }

  /** The report keys `domains` by the rows' domains and puts the two signals under
      `domain_validation`. */
  lemma ReportFields(companyName: string, rows: seq<Row>, response: Json, modelExists: Option<bool>)
    ensures var r := Report(companyName, rows, response, modelExists);
      && r.JObj? && "domains" in r.fields && r.fields["domains"].JObj?
      && (forall d :: d in r.fields["domains"].fields <==> d in Keys(rows))
      && "domain_validation" in r.fields
      && r.fields["domain_validation"] == JObj(map["exists" := OptionJson(DomainExists(rows)),
                                                   "valid_domains" := Strs(ValidDomains(rows))])
  {
    forall d ensures d in RowsJson(rows) <==> d in Keys(rows) {
      if d in RowsJson(rows) {
        var i :| 0 <= i < |rows| && rows[i].domain == d;
        assert Keys(rows)[i] == d;
      }
    }
  }

  /** The report is a non-empty dict, so a cache hit on it counts as a hit. */
  lemma ReportIsTruthy(companyName: string, rows: seq<Row>, response: Json, modelExists: Option<bool>)
    ensures Truthy(Report(companyName, rows, response, modelExists))
  {
    assert "company_name" in Report(companyName, rows, response, modelExists).fields;
  }

  /** A report written to the cache is what a later call gets back, without asking anyone,
      for as long as it has not expired: answers never enter the key. */
  lemma RepeatedCallHitsCache(store: map<CacheKey, Slot>, companyName: string, domains: Domains, w: World,
                              model: string -> Reply, written: int, defaultTtl: int, later: int)
    requires Existence(companyName, domains, w, model).Ok?
    requires later <= Expiry(written, None, defaultTtl)
    ensures var r := Existence(companyName, domains, w, model).value;
      var k := CacheKey(Namespace, CacheKeyData(companyName, domains));
      var after := AfterSet(store, k, Entry(Expiry(written, None, defaultTtl), r, k.keyData, Namespace), Written);
      Read(after, k, later) == Some(r) && Truthy(r)
  {
    var ds := ListOf(domains);
    var response := Sanitise(model(Prompt(companyName, ds)));
    ReportIsTruthy(companyName, Validations(ds, Checker(companyName, w)), response, ModelExists(response).value);
  }

  /** Lines 52-185 of `check_company_exists`: the work done on a cache miss, before the
      write. */
  method RunCheck(companyName: string, domains: Domains, w: World, model: string -> Reply)
    returns (r: Result<Json>)
    ensures r == Existence(companyName, domains, w, model)
  {
    var ds := ListOf(domains);
    var rows := ValidateAll(ds, companyName, w);
    var response := Sanitise(model(Prompt(companyName, ds)));
    var modelExists := ModelExists(response);
    if modelExists.Raised? {
      return Raised(modelExists.message);
    }
    return Ok(Report(companyName, rows, response, modelExists.value));
  }

  /** The checker owns a cache under ".cache/company_existence". */
  class CompanyExistenceChecker {
    const cache: CacheManager

    constructor (cacheTtl: int, existing: map<CacheKey, Slot>)
      ensures fresh(cache) && cache.store == existing && cache.defaultTtl == cacheTtl
    {
      cache := new CacheManager(cacheTtl, existing);
    }

    /** `check_company_exists(company_name, domains)`. The lookup happens at `now`, the
        write at `written`; `removeFails` and `write` say how the cache's file operations go. */
    method CheckCompanyExists(companyName: string, domains: Domains, w: World, model: string -> Reply,
                              now: int, written: int, removeFails: bool, write: WriteOutcome)
      returns (r: Result<Json>)
      modifies cache
      ensures var k := CacheKey(Namespace, CacheKeyData(companyName, domains));
        var hit := Read(old(cache.store), k, now);
        var afterGet := AfterGet(old(cache.store), k, now, removeFails);
        if hit.Some? && Truthy(hit.value) then
          r == Ok(hit.value) && cache.store == afterGet
        else
          r == Existence(companyName, domains, w, model)
          && cache.store == if r.Raised? then afterGet
                            else AfterSet(afterGet, k, Entry(Expiry(written, None, cache.defaultTtl), r.value, k.keyData, Namespace), write)
    {
      var keyData := CacheKeyData(companyName, domains);
      ghost var afterGet := AfterGet(cache.store, CacheKey(Namespace, keyData), now, removeFails);
      var cached := cache.Get(Namespace, keyData, now, removeFails);
      assert cache.store == afterGet;
      if cached.Some? && Truthy(cached.value) {
        return Ok(cached.value);
      }
      r := RunCheck(companyName, domains, w, model);
      if r.Ok? {
        cache.Set(Namespace, keyData, r.value, None, written, write);
      }
    }
  }
}
