# Company existence and domain verification, modelled in Dafny

This project models the core of a company-research tool. The tool asks a generative
language model about a company and checks the company's web domains. The model covers
six source files:

- `src/utils/json_helper.py` turns the model's free-text answer into one JSON value. It
  picks the body of a code fence, strips `//` and `/* */` comments and trailing commas,
  and tries a strict parse. If that fails, it strips stray control characters and parses
  again. If that fails too, it pulls seven known keys out with regular expressions.
  As a last resort it returns an error record. It never raises.
- `src/utils/domain_validator.py` does three things. `validate_domain` checks a domain's
  format, then DNS, then HTTPS (verified, then unverified), then HTTP.
  `validate_domain_relevance` matches a domain's labels against a company name by four
  rules. `_clean_company_name` strips business suffixes.
- `src/utils/cache_manager.py` is a TTL cache. It keeps one file per
  `namespace + "_" + sha256(sorted JSON key)`, and has get, set, delete and two clear
  operations.
- `src/data_extractors/company_existence.py` is the existence check. It looks up the
  cache, then validates every domain and scores relevance for the valid ones. Then it
  asks the model, cleans up the answer, and merges the two signals into `exists` and
  `confidence`. Finally it writes the result to the cache.
- `src/data_extractors/products_services.py` merges the website's products into the
  model's product and service lists. A website product that is not a string sends the
  call to its fallback, the website's products as they are.
- `src/data_extractors/company_data.py` lays the website's record over the model's
  record. A website record that is not a dict makes it raise `AttributeError`.

Modules:

- `Text`: the Python `str` operations used.
- `JsonValue`: decoded JSON values and truthiness.
- `PyObject`: dict, list and string operations, each with the exception it raises on a
  value of the wrong type.
- `JsonHelper`, `DomainValidator`, `Cache`, `CompanyExistence`, `ProductsServices` and
  `CompanyData`: one module per source file.

Code that builds a result step by step is a method with a loop. Each such method is
proved equal to a specification function, and the lemmas state what the source promises
about that function. The cache is a class. Its `store` field stands for the cache
directory and is a map from cache key to file contents.

Some behaviour of the code is worth stating plainly. It does not de-duplicate domains;
a repeated domain keeps a single dict entry.
It has no label-length, hyphen or character checks. It never asks the language model
about relevance. It treats a domain as existing when it is valid at all, not only when
it is both valid and related. And it does not write cache files atomically.

The code and its unit test disagree on confidence. Line 177 of
`src/data_extractors/company_existence.py` gives "high" for a valid domain together
with the answer "No". The test at `tests/test_company_existence.py:106-112` expects
"medium". The model follows the code; `CompanyExistence.ValidDomainAndNo` states what the
code does.

## Model

| member | source | states |
|---|---|---|
| `JsonHelper.Slice` | src/utils/json_helper.py:19 | Python slicing `s[start:end]`: inside the bounds it is the plain slice; a negative `end` counts from the back |
| `JsonHelper.UnfencedCandidate` | src/utils/json_helper.py:24-26 | a text with no fence is parsed whole, trimmed |
| `JsonHelper.JsonFencedCandidate` | src/utils/json_helper.py:16-19 | with a "```json" fence the candidate is the trimmed body up to the next fence, whatever follows it |
| `JsonHelper.BareFencedCandidate` | src/utils/json_helper.py:20-23 | with only bare fences (no "```json" anywhere) the candidate is the trimmed body between the first two fences |
| `JsonHelper.UnclosedJsonFence` | src/utils/json_helper.py:16-19 | with no closing fence `find` gives -1 and the candidate loses the text's last character |
| `JsonHelper.LineCommentsGone` | src/utils/json_helper.py:30 | after the first clean-up no `//` is left anywhere |
| `JsonHelper.LineCommentFree` | src/utils/json_helper.py:30 | a text without `//` passes the first clean-up unchanged |
| `JsonHelper.CommentRunsToEndOfLine` | src/utils/json_helper.py:30 | a `//` (a URL inside a string included) deletes the rest of its line |
| `JsonHelper.LineCommentsKeepLines` | src/utils/json_helper.py:30 | removing line comments never removes a newline |
| `JsonHelper.BlockCommentFree` | src/utils/json_helper.py:33 | a text without `/*` passes the block-comment clean-up unchanged |
| `JsonHelper.BlockCommentEndsAtFirstClose` | src/utils/json_helper.py:33 | a block comment ends at its first `*/` (the match is non-greedy), even across lines |
| `JsonHelper.NoTrailingCommaUnchanged` | src/utils/json_helper.py:36 | a text with no comma followed only by whitespace and a closing bracket is unchanged |
| `JsonHelper.TrailingCommaDropped` | src/utils/json_helper.py:36 | such a comma is removed and the whitespace and the bracket after it are kept |
| `JsonHelper.RemoveControl` | src/utils/json_helper.py:54 | the result contains none of the characters 0x00-0x08, 0x0B, 0x0C, 0x0E-0x1F |
| `JsonHelper.CleanControlCharacters` | src/utils/json_helper.py:48-57 | splitting into lines, cleaning each line and joining them again equals removing those characters from the whole text |
| `JsonHelper.RemoveControlCounts` | src/utils/json_helper.py:54 | the substitution deletes every occurrence of a character of the class and keeps every occurrence of every other character |
| `JsonHelper.ControlRetryKeepsLines` | src/utils/json_helper.py:48-57 | the retry keeps every character outside the class, tab, line feed and carriage return among them, so the number of lines stays the same |
| `JsonHelper.MatchRoundTrip` | src/utils/json_helper.py:91-97 | a well-formed `"key": "value"` pair is matched, and the captured value is exactly `value` |
| `JsonHelper.SearchIsLeftmost` | src/utils/json_helper.py:101 | `re.search` gives the match at the leftmost position where the pattern matches |
| `JsonHelper.FoundFields` | src/utils/json_helper.py:100-103 | a key is in the found fields exactly when its pattern matches, and its value is the captured string |
| `JsonHelper.FindFields` | src/utils/json_helper.py:100-103 | the loop over the patterns gives exactly those found fields |
| `JsonHelper.WithAliases` | src/utils/json_helper.py:105-111 | found keys are kept; only `company`/`company_name` may be added, each copied from the other when only one was found |
| `JsonHelper.ManualExtractionShape` | src/utils/json_helper.py:87-117 | fallback extraction fails exactly when no pattern matches; otherwise its keys are a subset of the seven plus the flag, the flag is true, and `company` is present exactly when `company_name` is |
| `JsonHelper.ManualExtractionFinds` | src/utils/json_helper.py:100-103 | every key whose pattern matches is in the result with the captured value |
| `JsonHelper.CompanyCopiedToCompanyName` | src/utils/json_helper.py:106-107 | only `company` found: `company_name` gets its value |
| `JsonHelper.CompanyNameCopiedToCompany` | src/utils/json_helper.py:110-111 | only `company_name` found: `company` gets its value |
| `JsonHelper.ManualJsonExtraction` | src/utils/json_helper.py:82-117 | the method with its loop equals the fallback extraction, with `None` for the `ValueError` |
| `JsonHelper.Preview` | src/utils/json_helper.py:71 | a text of at most `n` characters is kept as is; a longer one becomes its first `n` characters plus "..." |
| `JsonHelper.ExtractJsonFromResponse` | src/utils/json_helper.py:4-79 | the step-by-step extraction equals the specification `Extract` and returns on every path |
| `JsonHelper.PlainJsonParsedAsIs` | src/utils/json_helper.py:14-40 | JSON text with no fence, comment marks or trailing comma comes back as the strict parse of the trimmed text |
| `JsonHelper.ParsedValueReturned` | src/utils/json_helper.py:39-60 | a value the strict parser accepts, on the first or the second attempt, is returned unchanged |
| `JsonHelper.DegradedPath` | src/utils/json_helper.py:62-74 | after two decode errors the fallback scans the original text; if it finds nothing, the result is the error record whose `raw_text` is the 1000-character preview |
| `JsonHelper.UnexpectedErrorPath` | src/utils/json_helper.py:75-79 | any other exception gives the two-field record whose `raw_text` is the 500-character preview |
| `DomainValidator.NonEmpty` | src/utils/domain_validator.py:68 | keeps exactly the non-empty parts |
| `DomainValidator.FullDomainShape` | src/utils/domain_validator.py:68-69 | the probed name is `domain.suffix`, or `sub.domain.suffix` when there is a subdomain |
| `DomainValidator.CheckDomain` | src/utils/domain_validator.py:36-122 | the method, with the flags `https_failed` and `ssl_error` and its early returns, equals the decision function `ValidateDomain` |
| `DomainValidator.CheckHost` | src/utils/domain_validator.py:56-122 | from a known host: the split, the DNS lookup and the HEAD requests give exactly `HostVerdict`: missing name, then invalid suffix, then DNS failure or raise, then the reachability verdict |
| `DomainValidator.ProbeReachability` | src/utils/domain_validator.py:81-118 | the HEAD requests on a resolved domain, with the two flags, give exactly the verdict of `Reachability`: verified HTTPS below 400, else unverified HTTPS below 400 after an SSL failure, else the HTTP fallback, else "Domain exists"; a request raising outside `RequestException` ends the check with (False, "Validation error: ...") |
| `DomainValidator.MalformedNeverProbed` | src/utils/domain_validator.py:48-49 | empty or dot-less raw input gives (False, "Invalid domain format") whatever the network would say, and nothing is probed |
| `DomainValidator.ValidMeansResolved` | src/utils/domain_validator.py:59-79 | a true verdict means the domain label and suffix are present and DNS resolved the full name |
| `DomainValidator.NoRequestBeforeDns` | src/utils/domain_validator.py:76-79 | when the format checks or DNS fail, the HTTP(S) answers cannot change the verdict |
| `DomainValidator.FalseOnlyWhenBothRaise` | src/utils/domain_validator.py:81-118 | after DNS, the first request that raises outside `RequestException` gives (False, "Validation error: " + its text); without one, the verdict is false exactly when HTTPS raised a non-SSL `RequestException` and HTTP raised one too, with "appears to be inactive" |
| `DomainValidator.SslFailureStillExists` | src/utils/domain_validator.py:111-115 | an SSL failure, an unverified retry that neither succeeds nor escapes, and an HTTP `RequestException` still give true, "SSL verification failed, HTTP unavailable" |
| `DomainValidator.SuccessNamesAttempt` | src/utils/domain_validator.py:86-118 | each success message names the attempt that answered below 400; "Domain exists" means no attempt did and no exception escaped |
| `DomainValidator.HttpsErrorStatusSkipsHttp` | src/utils/domain_validator.py:86-89 | an HTTPS status of 400 or more gives (True, "Domain exists") without using the HTTP answer |
| `DomainValidator.Normalize` | src/utils/domain_validator.py:167 | the result has only lower-case alphanumerics and is no longer than the input |
| `DomainValidator.StripSuffixesPrefix` | src/utils/domain_validator.py:156-161 | the single ordered pass over the suffixes leaves a prefix of the name |
| `DomainValidator.StripCompanySuffixes` | src/utils/domain_validator.py:158-161 | the loop equals the single ordered pass, each suffix tried once |
| `DomainValidator.ContentWords` | src/utils/domain_validator.py:163-164 | keeps exactly the words that are not stop words |
| `DomainValidator.MainWords` | src/utils/domain_validator.py:182 | keeps exactly the words longer than two characters |
| `DomainValidator.WordMatches` | src/utils/domain_validator.py:184-188 | collects exactly the main words whose normalised form occurs in the label |
| `DomainValidator.Initials` | src/utils/domain_validator.py:195 | the abbreviation is the first letter of each main word, in order |
| `DomainValidator.MatchPart` | src/utils/domain_validator.py:170-197 | the loop for one label equals the four rules tried in order |
| `DomainValidator.ValidateDomainRelevance` | src/utils/domain_validator.py:124-199 | the method equals the specification `Relevance`: subdomain labels then the domain label, the first that matches decides |
| `DomainValidator.FirstRelevantAt` | src/utils/domain_validator.py:170-199 | the verdict is the message of the first label that matches |
| `DomainValidator.RelevantIffSomeLabelMatches` | src/utils/domain_validator.py:170-199 | the result is relevant exactly when some label satisfies a rule; otherwise it is the "doesn't appear to be related" message |
| `DomainValidator.EmptyNameAlwaysRelevant` | src/utils/domain_validator.py:167-178 | a company name that normalises to "" makes every domain with a label relevant |
| `DomainValidator.AbbreviationNeedsTwoWords` | src/utils/domain_validator.py:194-197 | with fewer than two main words only equality, containment or a word match can succeed |
| `DomainValidator.MainWordsOnlyContent` | src/utils/domain_validator.py:163-182 | stop words and words of at most two characters never take part in word matching |
| `DomainValidator.CleanNamePrefix` | src/utils/domain_validator.py:25-34 | in any set iteration order, the cleaned name is a prefix of the lower-cased, trimmed name |
| `DomainValidator.CleanCompanyName` | src/utils/domain_validator.py:25-34 | the loop equals the ordered pass over the business words, and its result is such a prefix |
| `Cache.FileNameInjective` | src/utils/cache_manager.py:43-50 | with a 64-digit hex digest, the file name determines namespace and digest |
| `Cache.GlobSelectsNamespace` | src/utils/cache_manager.py:150-152 | for a namespace `ns` without `*`, `?`, `[` or `/`, the glob `ns_*.json` selects a top-level cache file exactly when its namespace is `ns` or starts with `ns_` |
| `Cache.Expiry` | src/utils/cache_manager.py:100 | a TTL of None or 0 falls back to the default TTL; any other TTL is added to `now` |
| `Cache.GetAfterSet` | src/utils/cache_manager.py:64-107 | after a successful `set`, `get` with the same key returns exactly the stored data up to the expiry time |
| `Cache.ExpiryIsStrict` | src/utils/cache_manager.py:74-76 | at `expires_at` it is a hit; one second later it is a miss and the entry is removed |
| `Cache.SetFrame` | src/utils/cache_manager.py:99-107 | `set` leaves every other key's entry as it was |
| `Cache.CacheManager.constructor` | src/utils/cache_manager.py:16-26 | the cache starts with the files already in the directory and the given default TTL |
| `Cache.CacheManager.Get` | src/utils/cache_manager.py:52-83 | returns the stored data only for a readable, unexpired entry; an expired entry is removed; an unreadable one gives None |
| `Cache.CacheManager.Set` | src/utils/cache_manager.py:85-112 | writes `{expires_at, data, key_data, namespace}` under its own key only; a failed `open` changes nothing |
| `Cache.CacheManager.Delete` | src/utils/cache_manager.py:114-138 | returns true exactly when the entry existed and its removal succeeded; removes only that entry |
| `Cache.CacheManager.ClearNamespace` | src/utils/cache_manager.py:140-164 | for a namespace without glob metacharacters, removes exactly the matching entries whose removal succeeds and returns how many; a failing glob gives 0 and changes nothing |
| `Cache.CacheManager.ClearAll` | src/utils/cache_manager.py:166-187 | removes every entry whose removal succeeds and returns how many; a failing glob gives 0 and changes nothing |
| `CompanyExistence.DomainArgumentForms` | src/data_extractors/company_existence.py:42-68 | a single string is wrapped in a list both in the cache key and in the domain list; `None` validates no domains but is cached apart from `[]` |
| `CompanyExistence.ValidationsShape` | src/data_extractors/company_existence.py:75-94 | one entry per distinct domain, in order of first appearance, each holding that domain's own check |
| `CompanyExistence.EveryDomainReported` | src/data_extractors/company_existence.py:75-94 | every supplied domain, and no other, is a key of `domains` |
| `CompanyExistence.RelevanceOnlyWhenValid` | src/data_extractors/company_existence.py:83-94 | relevance is present exactly for the domains whose validation is true |
| `CompanyExistence.ValidateAll` | src/data_extractors/company_existence.py:75-96 | the loop filling `domain_validations` equals the specification `Validations` |
| `CompanyExistence.DomainExistsMeans` | src/data_extractors/company_existence.py:144-147 | `domain_exists` is None exactly when no domains were given, and otherwise says whether any domain validates |
| `CompanyExistence.ValidDomainsMeans` | src/data_extractors/company_existence.py:170-173 | `valid_domains` holds each valid supplied domain once and nothing else; for distinct domains the report's keys are the domains themselves |
| `CompanyExistence.ValidDomainsFilter` | src/data_extractors/company_existence.py:170-173 | over rows that carry their domains' own checks, `valid_domains` is the row keys filtered by validity, in row order |
| `CompanyExistence.ValidDomainsInOrder` | src/data_extractors/company_existence.py:76-173 | `valid_domains` is the supplied domains, in the order they first appear, filtered by validity |
| `CompanyExistence.PromptMentions` | src/data_extractors/company_existence.py:103-118 | the question contains the company name and every domain |
| `CompanyExistence.SanitisedReplies` | src/data_extractors/company_existence.py:120-139 | a non-dict reply or one with "error" becomes "Unclear"; a raising client becomes "Error" with its message; any other dict is kept |
| `CompanyExistence.ModelExistsTable` | src/data_extractors/company_existence.py:149-154 | "yes" and "no" in any letter case are the two answers; other strings and falsy values give None; a truthy non-string raises |
| `CompanyExistence.FailedClientGivesNoAnswer` | src/data_extractors/company_existence.py:133-154 | an "Error" answer from a raising client gives no model signal |
| `CompanyExistence.MergeTable` | src/data_extractors/company_existence.py:156-163 | `exists` is the AND of both signals when both exist, else whichever exists, else None |
| `CompanyExistence.ConfidenceLevels` | src/data_extractors/company_existence.py:177 | "high" exactly when a domain validated and the model answered; "low" exactly when neither happened |
| `CompanyExistence.ValidDomainAndNo` | src/data_extractors/company_existence.py:177 | a valid domain with the answer "No" gives `exists` false and confidence "high" |
| `CompanyExistence.ReportShape` | src/data_extractors/company_existence.py:165-178 | the report's `domains` keys are exactly the supplied domains, and `domain_validation` carries both domain signals |
| `CompanyExistence.ReportFields` | src/data_extractors/company_existence.py:165-178 | for any rows, the report's `domains` dict has exactly the rows' domains as keys and `domain_validation` holds `exists` and `valid_domains` computed from those rows |
| `CompanyExistence.ReportIsTruthy` | src/data_extractors/company_existence.py:48 | a report is a non-empty dict, so a cached report is a hit |
| `CompanyExistence.RepeatedCallHitsCache` | src/data_extractors/company_existence.py:42-50 | a report written to the cache is returned verbatim by a later lookup within the TTL; the model's answers are not part of the key |
| `CompanyExistence.CompanyExistenceChecker.constructor` | src/data_extractors/company_existence.py:12-15 | the checker owns a fresh cache with the given TTL |
| `CompanyExistence.RunCheck` | src/data_extractors/company_existence.py:52-185 | the work of a cache miss (domain list, validation loop, model call, report) returns exactly the specification `Existence`, a raise included |
| `CompanyExistence.CompanyExistenceChecker.CheckCompanyExists` | src/data_extractors/company_existence.py:24-190 | on a truthy hit it returns the cached value and writes nothing; otherwise it returns the specification `Existence` and writes the report to the cache under "existence_check" |
| `ProductsServices.WebConfidenceLevels` | src/data_extractors/products_services.py:23-37 | "low" exactly for falsy web products; "high" exactly for truthy ones whose `len` is above three; "medium" otherwise, including a truthy value without `len`; for a list: none, one to three, more |
| `ProductsServices.IsDuplicateMeans` | src/data_extractors/products_services.py:58-61 | on a string list, `is_duplicate` holds exactly when some element and the item contain one another, ignoring case |
| `ProductsServices.StepAddsOnlyNewProducts` | src/data_extractors/products_services.py:64-70 | a web product is appended exactly when neither list has a duplicate of it: to services if it names a service term, to products otherwise |
| `ProductsServices.MergeOfStringLists` | src/data_extractors/products_services.py:63-73 | for string web products, the merge only appends web products after the model's items, in order, and leaves every web product covered |
| `ProductsServices.MergeRaisesOnNonString` | src/data_extractors/products_services.py:58-70 | on string lists, a web product that is not a string makes the merge raise |
| `ProductsServices.MergeWebProducts` | src/data_extractors/products_services.py:63-70 | the loop equals the specification `Merge` |
| `ProductsServices.NoWebProductsKeepsReply` | src/data_extractors/products_services.py:52-82 | with falsy web products the model's reply is returned unchanged |
| `ProductsServices.MergedReply` | src/data_extractors/products_services.py:52-82 | with a non-empty list of string web products, the merged lists, a confidence raised from "low" or missing and never lowered, both sources named, other fields kept |
| `ProductsServices.NonStringProductFallsBack` | src/data_extractors/products_services.py:52-93 | a non-string web product sends even a well-formed reply to the handler: the web products as they are, the web confidence, the website source and the note |
| `ProductsServices.ClientFailureFallback` | src/data_extractors/products_services.py:83-93 | when the model fails: truthy web products as they are with the web confidence and the note, or an error record with empty lists and "low" |
| `ProductsServices.MergeIntoReply` | src/data_extractors/products_services.py:52-82 | updating the reply field by field equals the specification `Attempt` |
| `ProductsServices.Respond` | src/data_extractors/products_services.py:48-93 | the `try` and its fallback never raise and equal the specification `ProductsAndServices` |
| `ProductsServices.GetProductsServices` | src/data_extractors/products_services.py:13-93 | `web_products` read from a dict `website_info` (else empty) and the step-by-step `web_confidence`, then the reply to the prompt, equal the specification `ProductsAndServices` |
| `PyObject.In` | src/data_extractors/company_data.py:78 | `x in list` holds exactly when some item is `==` to `x` under Python equality, where `True == 1` and `False == 0`, element by element inside lists and dicts; `x in str` is substring containment; it raises exactly on a non-container, a non-string in a string, or a list or dict looked up in a dict |
| `PyObject.BoolsAreInts` | src/data_extractors/company_data.py:78 | `1 in [True]`, `False in [0]` and `[1] in [[True]]` hold, `2 in [True]` does not |
| `CompanyData.AddMissingToList` | src/data_extractors/company_data.py:73-80 | on a list, the model's products stay first and in order, then every website product is `in` the result, nothing else is added, and a list with no two equal items gets none |
| `CompanyData.EqualItemNotAdded` | src/data_extractors/company_data.py:77-79 | the website's `1` is not appended to the model's `[True]`, since Python finds it already there |
| `CompanyData.AddMissingProducts` | src/data_extractors/company_data.py:76-79 | the loop equals the specification `AddMissing` |
| `CompanyData.NoWebsiteTagsModelOnly` | src/data_extractors/company_data.py:60-93 | without website data, the reply comes back with only `data_sources` = ["gemini_api"] added |
| `CompanyData.MergeOfMappings` | src/data_extractors/company_data.py:61-91 | on a dict reply the website merge never raises and its result is merged from the two records |
| `CompanyData.WebsiteWins` | src/data_extractors/company_data.py:61-91 | truthy website name, description, website and contact info win; products are merged; social media is the union with the website winning; both sources are named; other fields are kept |
| `CompanyData.WebsiteFallbackFields` | src/data_extractors/company_data.py:100-117 | the handler's website-only record is exactly the ten fields: the website's name, description, address, products, social media and contact details or their defaults, `exists` true, "medium", the website source and the error |
| `CompanyData.ClientFailureFallback` | src/data_extractors/company_data.py:97-117 | when the model fails nothing raises: with a website dict the answer is that website-only record, without one `{company_name, error, "low"}` |
| `CompanyData.RaisesOnlyOnNonDictWebsite` | src/data_extractors/company_data.py:24-117 | the call raises exactly when `website_info` is not a dict, with the `AttributeError` of `.get` on it |
| `CompanyData.MergeWebsite` | src/data_extractors/company_data.py:61-91 | updating the reply field by field equals the specification `WebsiteMerge` |
| `CompanyData.TryGenerate` | src/data_extractors/company_data.py:57-95 | the `try` body equals the specification `Attempt` |
| `CompanyData.Respond` | src/data_extractors/company_data.py:24-117 | `website_data` rebound and marked step by step, the `data_available` test, the merge and the fallback give exactly `CompanyRecord`, including its raise on a non-dict `website_info` |
| `CompanyData.GetCompanyData` | src/data_extractors/company_data.py:13-117 | the reply to the prompt, merged, equals `CompanyRecord` |

## Left out

- DNS (`socket.gethostbyname`), the HEAD requests (`requests.head`), `urlparse` and
  `tldextract` are the functions of a `World` parameter. Timeouts and redirects are part
  of what a probe answers, and so is an exception outside `RequestException`, which the
  outer handler turns into "Validation error: ...". A `tldextract` that raises is not
  modelled.
- `json.loads` is the parameter `parse`. It answers with a value, a decode error with
  line and column, or another exception.
- `Cache.CacheKey` stands for the file name of `src/utils/cache_manager.py:43-46`. Neither
  `json.dumps(key_data, sort_keys=True)` nor SHA-256 is modelled, so nothing is proved
  about when two key datas give the same file. The model assumes the serialisation and
  the hash are injective. JSON objects are maps, so key order disappears, as it does in
  the sorted serialisation. Only `Cache.FileNameInjective` is proved about the name:
  the namespace and the digest can be read back from it.
- `time.time()` is the argument `now`, in whole seconds; floating-point time is not
  modelled. JSON numbers are integers.
- The file system is the `store` map. Which `open`, `json.dump`, `os.remove` or glob
  fails is an argument. A file that `json.load` or the `expires_at` lookup cannot read
  is one `Unreadable` slot. Atomic writes and concurrent writers are not modelled;
  the source has neither.
- The model's client (`GeminiService.generate_response`) is a function from prompt to
  reply. The reply is a decoded value or an exception message. The client returns
  `{"error": ...}` on its own failures; that is a reply like any other.
- The web scraper is an input. For the products and company-data extractors it gives
  the website's `website_info`, any decoded value, or nothing when there is no scraper,
  it raises or it found no website. `WebScraper.search_company_info` never
  sets `found_website` (it sets `data_found`), so in the repository these inputs are
  always empty. The model still covers the website branches.
- The assertion of `src/data_extractors/company_existence.py:71-73` about
  `fetch_domains` is not modelled. The scraper has no such method, so it always holds.
- Letter case and `isalnum` cover ASCII only. `re.IGNORECASE` also covers the four
  non-ASCII characters that fold onto `i`, `s` and `k`. Other Unicode case mappings
  are not modelled.
- `DomainValidator.CleanCompanyName`: a Python set has no fixed iteration order, so the
  order of the business words is a parameter. Nothing in the repository calls this
  function.
- `Cache.CacheManager.ClearNamespace`: a namespace holding `*`, `?`, `[` or `/` is not
  modelled. The code pastes it into the glob pattern unescaped, so it would act as a
  wildcard, a character class or a directory. The repository's only namespace,
  "existence_check", has none of these. Cache keys whose namespace holds `/` (files in
  a sub-directory) are treated as top-level files.
- `Cache.GlobSelectsNamespace`: stated only for namespaces free of those characters, and
  for key namespaces without `/`, for the same reason.
- `PyObject.Iterate`: iterating a dict (its keys in insertion order) raises in the
  model, because objects here have no key order. In the source, a website
  `products_services` given as a dict would add its keys; in the model that call ends
  in the website fallback.
- `CompanyExistence.Validations`: a domain given as something other than a string is
  not modelled. Nor is an exception from joining such domains into the prompt.
- Logging, `debug_print`, `pdb` and the prompt wording beyond the literal text in the
  model are left out.
