/**
  * `validate_domain`, `validate_domain_relevance` and `_clean_company_name`.
  * The URL parser, the public-suffix split (`tldextract`), DNS and the HEAD requests
  * are a `World` of functions; what `validate_domain` decides from their answers is
  * the function `ValidateDomain`, and the method `CheckDomain` threads the two flags
  * of the source through the same decisions. Relevance is string matching over the
  * labels of the domain.
  */
module DomainValidator {
  import opened Text
  import opened JsonValue

  /** What one HEAD request does: answer with a status code, fail SSL verification,
      raise any other `RequestException`, or raise an exception outside that family
      (a urllib3 error `requests` does not wrap, say), whose text is `message`. */
  datatype Probe = Status(code: int) | SslFailure | RequestFailure | ProbeRaised(message: string)

  /** `socket.gethostbyname`: resolves, raises `gaierror`, or raises something else. */
  datatype Lookup = Resolved | LookupFailed | LookupRaised(message: string)

  /** `urlparse(d).netloc`, which raises `ValueError` on a malformed bracketed host. */
  datatype Netloc = Netloc(host: string) | NetlocRaised(message: string)

  /** What `tldextract.extract` returns; each part may be empty. */
  datatype DomainParts = DomainParts(subdomain: string, domain: string, suffix: string)

  /** Everything `validate_domain` asks the outside world. The three requests are
      verified HTTPS, HTTPS with `verify=False`, and HTTP, each on the full domain. */
  datatype World = World(
    netloc: string -> Netloc,
    split: string -> DomainParts,
    dns: string -> Lookup,
    https: string -> Probe,
    httpsUnverified: string -> Probe,
    http: string -> Probe)

  /** The `(bool, message)` pair both validators return. */
  datatype Verdict = Verdict(ok: bool, message: string)

  const InvalidFormat: string := "Invalid domain format"
  const MissingName: string := "Invalid domain: missing domain name"
  const InvalidTld: string := "Invalid domain: unknown or invalid TLD"
  const DnsFailed: string := "Domain does not exist (DNS lookup failed)"
  const VerifiedHttps: string := "Domain exists and is HTTPS-enabled (verified SSL)"
  const UnverifiedHttps: string := "Domain exists and is HTTPS-enabled (unverified SSL)"
  const HttpOnly: string := "Domain exists (HTTP only)"
  const SslNoHttp: string := "Domain exists (SSL verification failed, HTTP unavailable)"
  const Inactive: string := "Domain exists but appears to be inactive"
  const Exists: string := "Domain exists"
  const ErrorPrefix: string := "Validation error: "

  /* ------------------------------------------------------ validate_domain */

  /** `[part for part in xs if part]` */
  function NonEmpty(xs: seq<string>): (r: seq<string>)
    ensures forall i | 0 <= i < |r| :: r[i] != [] && r[i] in xs
    ensures forall x | x in xs && x != [] :: x in r
  {
    if xs == [] then []
    else (if xs[0] == [] then [] else [xs[0]]) + NonEmpty(xs[1..])
  }

  /** Line 68-69: the non-empty parts joined with dots. */
  function FullDomain(ext: DomainParts): string
  {
    Join(".", NonEmpty([ext.subdomain, ext.domain, ext.suffix]))
  }

  /** Without a subdomain the full domain is `domain.suffix`, with one `sub.domain.suffix`. */
  lemma FullDomainShape(ext: DomainParts)
    requires ext.domain != [] && ext.suffix != []
    ensures ext.subdomain == [] ==> FullDomain(ext) == ext.domain + "." + ext.suffix
    ensures ext.subdomain != [] ==> FullDomain(ext) == ext.subdomain + "." + ext.domain + "." + ext.suffix
  {
    var xs := [ext.subdomain, ext.domain, ext.suffix];
    assert xs[1..] == [ext.domain, ext.suffix] && xs[1..][1..] == [ext.suffix];
    assert NonEmpty([ext.suffix]) == [ext.suffix] by {
      assert [ext.suffix][1..] == [];
    }
    assert NonEmpty(xs[1..]) == [ext.domain, ext.suffix];
    assert Join(".", [ext.domain, ext.suffix]) == ext.domain + "." + ext.suffix by {
      assert [ext.domain, ext.suffix][1..] == [ext.suffix];
    }
    if ext.subdomain != [] {
      assert NonEmpty(xs) == [ext.subdomain, ext.domain, ext.suffix];
      assert [ext.subdomain, ext.domain, ext.suffix][1..] == [ext.domain, ext.suffix];
    } else {
      assert NonEmpty(xs) == NonEmpty(xs[1..]);
    }
  }

  /** What the HEAD requests of lines 81-118 decide, once DNS has resolved. */
  function Reachability(https: Probe, unverified: Probe, http: Probe): Verdict
  {
    match https
    case ProbeRaised(m) => Verdict(false, ErrorPrefix + m)
    case Status(code) => if code < 400 then Verdict(true, VerifiedHttps) else Verdict(true, Exists)
    case SslFailure =>
      (match unverified
       case ProbeRaised(m) => Verdict(false, ErrorPrefix + m)
       case Status(code) =>
         if code < 400 then Verdict(true, UnverifiedHttps) else HttpFallback(http, true)
       case _ => HttpFallback(http, true))
    case RequestFailure => HttpFallback(http, false)
  }

  /** Lines 105-118: the HTTP attempt after HTTPS failed in some way. */
  function HttpFallback(http: Probe, sslError: bool): Verdict
  {
    match http
    case Status(code) => if code < 400 then Verdict(true, HttpOnly) else Verdict(true, Exists)
    case ProbeRaised(m) => Verdict(false, ErrorPrefix + m)
    case _ => if sslError then Verdict(true, SslNoHttp) else Verdict(false, Inactive)
  }

  /** The host handed to `tldextract`: trimmed, lower-cased, and the network location
      of a URL. */
  function Host(domain: string, w: World): Netloc
  {
    var d := Lower(Strip(domain));
    if StartsWith(d, "http://") || StartsWith(d, "https://") then w.netloc(d) else Netloc(d)
  }

  /** The full domain DNS and HTTP are asked about, if the format checks let it through. */
  function Probed(domain: string, w: World): Option<string>
  {
    if domain == [] || '.' !in domain then None
    else match Host(domain, w)
      case NetlocRaised(_) => None
      case Netloc(h) =>
        var ext := w.split(h);
        if ext.domain == [] || ext.suffix == [] then None else Some(FullDomain(ext))
  }

  /** `validate_domain(domain)` */
  function ValidateDomain(domain: string, w: World): Verdict
  {
    if domain == [] || '.' !in domain then Verdict(false, InvalidFormat)
    else match Host(domain, w)
      case NetlocRaised(m) => Verdict(false, ErrorPrefix + m)
      case Netloc(h) => HostVerdict(h, w)
  }

  /** Lines 56-122, once the host is known: the split, DNS, then the HEAD requests. */
  function HostVerdict(host: string, w: World): Verdict
  {
    var ext := w.split(host);
    if ext.domain == [] then Verdict(false, MissingName)
    else if ext.suffix == [] then Verdict(false, InvalidTld)
    else
      var full := FullDomain(ext);
      match w.dns(full)
      case LookupFailed => Verdict(false, DnsFailed)
      case LookupRaised(m) => Verdict(false, ErrorPrefix + m)
      case Resolved => Reachability(w.https(full), w.httpsUnverified(full), w.http(full))
  }

  /** Lines 46-122 with the flags `https_failed` and `ssl_error` and the early returns. */
  method CheckDomain(domain: string, w: World) returns (ok: bool, message: string)
    ensures Verdict(ok, message) == ValidateDomain(domain, w)
  {
    if domain == [] || '.' !in domain {
      return false, InvalidFormat;
    }
    var d := Lower(Strip(domain));
    var host := d;
    if StartsWith(d, "http://") || StartsWith(d, "https://") {
      var parsed := w.netloc(d);
      if parsed.NetlocRaised? {
        return false, ErrorPrefix + parsed.message;
      }
      host := parsed.host;
    }
    assert Host(domain, w) == Netloc(host);
    ok, message := CheckHost(host, w);
  }

  /** Lines 56-122: the split, the DNS lookup, and the HEAD requests. */
  method CheckHost(host: string, w: World) returns (ok: bool, message: string)
    ensures Verdict(ok, message) == HostVerdict(host, w)
  {
    var ext := w.split(host);
    if ext.domain == [] {
      return false, MissingName;
    }
    if ext.suffix == [] {
      return false, InvalidTld;
    }
    var full := FullDomain(ext);
    var lookup := w.dns(full);
    if lookup.LookupFailed? {
      return false, DnsFailed;
    } else if lookup.LookupRaised? {
      return false, ErrorPrefix + lookup.message;
    }
    ok, message := ProbeReachability(full, w);
  }

  /** Lines 81-118: the HEAD requests on a resolved domain, with the flags `https_failed`
      and `ssl_error`. */
  method ProbeReachability(full: string, w: World) returns (ok: bool, message: string)
    ensures Verdict(ok, message) == Reachability(w.https(full), w.httpsUnverified(full), w.http(full))
  {
    var httpsFailed := false;
    var sslError := false;
    var response := w.https(full);
    if response.ProbeRaised? {
      return false, ErrorPrefix + response.message;
    } else if response.Status? {
      if response.code < 400 {
        return true, VerifiedHttps;
      }
    } else if response.SslFailure? {
      sslError := true;
      var retry := w.httpsUnverified(full);
      if retry.ProbeRaised? {
        return false, ErrorPrefix + retry.message;
      } else if retry.Status? {
        if retry.code < 400 {
          return true, UnverifiedHttps;
        }
      } else {
        httpsFailed := true;
      }
    } else {
      httpsFailed := true;
    }
    if httpsFailed || sslError {
      var plain := w.http(full);
      if plain.ProbeRaised? {
        return false, ErrorPrefix + plain.message;
      } else if plain.Status? {
        if plain.code < 400 {
          return true, HttpOnly;
        }
      } else {
        if sslError {
          return true, SslNoHttp;
        }
        return false, Inactive;
      }
    }
    return true, Exists;
  }

  /** Empty or dot-less input is rejected on the raw text, whatever the world answers:
      nothing is parsed, split, resolved or requested. */
  lemma MalformedNeverProbed(domain: string, w: World, other: World)
    requires domain == [] || '.' !in domain
    ensures ValidateDomain(domain, w) == ValidateDomain(domain, other) == Verdict(false, InvalidFormat)
    ensures Probed(domain, w).None?
  {
  }

  /** A true verdict means the format checks passed and DNS resolved the full domain. */
  lemma ValidMeansResolved(domain: string, w: World)
    ensures ValidateDomain(domain, w).ok ==> Probed(domain, w).Some? && w.dns(Probed(domain, w).value).Resolved?
    ensures Probed(domain, w).None? ==> !ValidateDomain(domain, w).ok
  {
  }

  /** Until DNS has resolved, no HEAD request is made: swapping every request answers
      nothing. */
  lemma NoRequestBeforeDns(domain: string, w: World, https: string -> Probe, unverified: string -> Probe, http: string -> Probe)
    requires Probed(domain, w).None? || !w.dns(Probed(domain, w).value).Resolved?
    ensures ValidateDomain(domain, w) == ValidateDomain(domain, w.(https := https, httpsUnverified := unverified, http := http))
  {
    var swapped := w.(https := https, httpsUnverified := unverified, http := http);
    assert Host(domain, swapped) == Host(domain, w);
    if domain != [] && '.' in domain && Host(domain, w).Netloc? {
      var h := Host(domain, w).host;
      assert HostVerdict(h, swapped) == HostVerdict(h, w);
    }
  }

  /** A `RequestException`, the family the handlers of lines 98, 100 and 109 catch. */
  predicate RequestError(p: Probe)
  {
    p.SslFailure? || p.RequestFailure?
  }

  /** The exception that leaves the requests of lines 84-116 for the outer handler of
      lines 120-122, if any: the first request made that raises outside the family. */
  function Escaped(https: Probe, unverified: Probe, http: Probe): Option<string>
  {
    if https.ProbeRaised? then Some(https.message)
    else if https.Status? then None
    else if https.SslFailure? && unverified.ProbeRaised? then Some(unverified.message)
    else if https.SslFailure? && unverified.Status? && unverified.code < 400 then None
    else if http.ProbeRaised? then Some(http.message)
    else None
  }

  /** After DNS, an exception outside the request family gives (False, "Validation
      error: ..."); otherwise the verdict is false only when HTTPS raised something
      other than an SSL failure and HTTP raised too. */
  lemma FalseOnlyWhenBothRaise(https: Probe, unverified: Probe, http: Probe)
    ensures Escaped(https, unverified, http).Some? ==>
      Reachability(https, unverified, http) == Verdict(false, ErrorPrefix + Escaped(https, unverified, http).value)
    ensures Escaped(https, unverified, http).None? ==>
      (!Reachability(https, unverified, http).ok <==> https.RequestFailure? && RequestError(http))
    ensures Escaped(https, unverified, http).None? && !Reachability(https, unverified, http).ok ==>
      Reachability(https, unverified, http).message == Inactive
  {
  }

  /** An SSL failure followed by an HTTP exception still counts as existing. */
  lemma SslFailureStillExists(unverified: Probe, http: Probe)
    requires !(unverified.Status? && unverified.code < 400) && !unverified.ProbeRaised?
    requires RequestError(http)
    ensures Reachability(SslFailure, unverified, http) == Verdict(true, SslNoHttp)
  {
  }

  /** Each success message names the attempt that answered below 400; "Domain exists"
      means no attempt did. */
  lemma SuccessNamesAttempt(https: Probe, unverified: Probe, http: Probe)
    ensures Reachability(https, unverified, http).message == VerifiedHttps <==> https.Status? && https.code < 400
    ensures Reachability(https, unverified, http).message == UnverifiedHttps <==>
      https.SslFailure? && unverified.Status? && unverified.code < 400
    ensures Reachability(https, unverified, http).message == HttpOnly ==> http.Status? && http.code < 400
    ensures Reachability(https, unverified, http).message == Exists <==>
      || (https.Status? && https.code >= 400)
      || (!https.Status? && !(https.SslFailure? && unverified.Status? && unverified.code < 400)
          && Escaped(https, unverified, http).None? && http.Status? && http.code >= 400)
  {
    var e := Escaped(https, unverified, http);
    if e.Some? {
      var v := Reachability(https, unverified, http);
      assert v.message[0] == 'V';
      assert VerifiedHttps[0] == UnverifiedHttps[0] == HttpOnly[0] == Exists[0] == 'D';
    }
  }

  /** An HTTPS answer of 400 or more ends the check as "Domain exists", whatever HTTP would say. */
  lemma HttpsErrorStatusSkipsHttp(code: int, unverified: Probe, http: Probe)
    requires code >= 400
    ensures Reachability(Status(code), unverified, http) == Verdict(true, Exists)
  {
  }

  /* ---------------------------------------------- validate_domain_relevance */

  const Suffixes: seq<string> :=
    [" inc", " corp", " corporation", " llc", " ltd", " limited",
     " company", " co", " group", " holdings", " international"]

  const StopWords: set<string> := {"the", "and", "of", "for", "in", "at", "by", "to", "a", "an"}

  const Unrelated: string := "Domain doesn't appear to be related to the company"

  /** `''.join(e for e in s if e.isalnum()).lower()` */
  function Normalize(s: string): (r: string)
    ensures |r| <= |s|
    ensures forall i | 0 <= i < |r| :: IsAlnum(r[i]) && LowerChar(r[i]) == r[i]
  {
    if s == [] then []
    else (if IsAlnum(s[0]) then [LowerChar(s[0])] else []) + Normalize(s[1..])
  }

  /** One step of the pass of lines 159-161: `s[:-len(suffix)].strip()` if `s` ends with it. */
  function DropSuffix(s: string, suffix: string): string
  {
    if EndsWith(s, suffix) then Strip(s[..|s| - |suffix|]) else s
  }

  /** The single ordered pass over `suffixes`: each one is tried once, in list order. */
  function StripSuffixes(s: string, suffixes: seq<string>): string
  {
    if suffixes == [] then s
    else DropSuffix(StripSuffixes(s, suffixes[..|suffixes| - 1]), suffixes[|suffixes| - 1])
  }

  predicate Unpadded(s: string)
  {
    s == [] || !IsSpace(s[0])
  }

  lemma CutUnpadded(s: string, m: nat)
    requires Unpadded(s) && m <= |s|
    ensures Unpadded(s[..m])
  {
    if m > 0 {
      assert s[..m][0] == s[0];
    }
  }

  lemma TrimRightOfPrefix(s: string, t: string)
    requires Unpadded(t) && StartsWith(s, t)
    ensures StartsWith(s, TrimRight(t)) && Unpadded(TrimRight(t))
  {
    var r := TrimRight(t);
    assert r == t[..|r|];
    assert s[..|r|] == s[..|t|][..|r|];
    if r != [] {
      assert r[0] == t[0];
    }
  }

  /** Cutting an unpadded name and stripping the cut leaves an unpadded prefix of it. */
  lemma StripCutPrefix(s: string, m: nat)
    requires Unpadded(s) && m <= |s|
    ensures StartsWith(s, Strip(s[..m])) && Unpadded(Strip(s[..m]))
  {
    CutUnpadded(s, m);
    StripOfUnpadded(s[..m]);
    TrimRightOfPrefix(s, s[..m]);
  }

  lemma DropSuffixPrefix(s: string, suffix: string)
    requires Unpadded(s)
    ensures StartsWith(s, DropSuffix(s, suffix)) && Unpadded(DropSuffix(s, suffix))
  {
    if EndsWith(s, suffix) {
      StripCutPrefix(s, |s| - |suffix|);
    }
  }

  /** The stripped name is a prefix of the name, so the pass only ever shortens it at the end. */
  lemma {:induction false} StripSuffixesPrefix(s: string, suffixes: seq<string>)
    requires Unpadded(s)
    ensures StartsWith(s, StripSuffixes(s, suffixes)) && Unpadded(StripSuffixes(s, suffixes))
  {
    if suffixes != [] {
      var before := StripSuffixes(s, suffixes[..|suffixes| - 1]);
      StripSuffixesPrefix(s, suffixes[..|suffixes| - 1]);
      DropSuffixPrefix(before, suffixes[|suffixes| - 1]);
      PrefixOfPrefix(s, before, DropSuffix(before, suffixes[|suffixes| - 1]));
    }
  }

  /** `[w for w in words if w not in common_words]` */
  function ContentWords(words: seq<string>): (r: seq<string>)
    ensures forall i | 0 <= i < |r| :: r[i] in words && r[i] !in StopWords
    ensures forall w | w in words && w !in StopWords :: w in r
  {
    if words == [] then []
    else (if words[0] in StopWords then [] else [words[0]]) + ContentWords(words[1..])
  }

  /** `[w for w in company_words if len(w) > 2]` */
  function MainWords(words: seq<string>): (r: seq<string>)
    ensures forall i | 0 <= i < |r| :: r[i] in words && |r[i]| > 2
    ensures forall w | w in words && |w| > 2 :: w in r
  {
    if words == [] then []
    else (if |words[0]| > 2 then [words[0]] else []) + MainWords(words[1..])
  }

  /** The main words whose normalised form occurs in the normalised label, in order. */
  function WordMatches(main: seq<string>, part: string): (r: seq<string>)
    ensures forall i | 0 <= i < |r| :: r[i] in main && Contains(part, Normalize(r[i]))
    ensures forall w | w in main && Contains(part, Normalize(w)) :: w in r
  {
    if main == [] then []
    else (if Contains(part, Normalize(main[0])) then [main[0]] else []) + WordMatches(main[1..], part)
  }

  /** `''.join(word[0] for word in main_words)` */
  function Initials(main: seq<string>): (r: string)
    requires forall i | 0 <= i < |main| :: main[i] != []
    ensures |r| == |main|
    ensures forall i | 0 <= i < |main| :: r[i] == main[i][0]
  {
    if main == [] then [] else [main[0][0]] + Initials(main[1..])
  }

  /** The four rules of lines 173-197 for one label, in order: the message of the first
      that holds. `name` is the normalised company name, `main` its main words. */
  function LabelMatch(part: string, name: string, main: seq<string>): Option<string>
    requires forall i | 0 <= i < |main| :: |main[i]| > 2
  {
    var normalized := Normalize(part);
    if name == normalized then Some("Domain part '" + part + "' exactly matches company name")
    else if Contains(normalized, name) then Some("Domain part '" + part + "' contains full company name")
    else if main == [] then None
    else
      var matches := WordMatches(main, normalized);
      if matches != [] then Some("Domain contains company name parts: " + Join(", ", matches))
      else if |main| > 1 && Lower(Initials(main)) == normalized then
        Some("Domain '" + part + "' matches company abbreviation (" + Initials(main) + ")")
      else None
  }

  /** The labels checked, in order: the subdomain's labels, then the domain label. */
  function Labels(ext: DomainParts): seq<string>
  {
    (if ext.subdomain != [] then Split(ext.subdomain, '.') else []) + [ext.domain]
  }

  /** The verdict of the first label a rule holds for. */
  function FirstRelevant(labels: seq<string>, name: string, main: seq<string>): Verdict
    requires forall i | 0 <= i < |main| :: |main[i]| > 2
  {
    if labels == [] then Verdict(false, Unrelated)
    else match LabelMatch(labels[0], name, main)
      case Some(m) => Verdict(true, m)
      case None => FirstRelevant(labels[1..], name, main)
  }

  /** The company name as matched: lower-cased, trimmed, suffixes stripped. */
  function CleanCompany(companyName: string): string
  {
    StripSuffixes(Strip(Lower(companyName)), Suffixes)
  }

  /** `validate_domain_relevance(domain, company_name)`, with `tldextract` as `split`. */
  function Relevance(domain: string, companyName: string, split: string -> DomainParts): Verdict
  {
    var ext := split(Strip(Lower(domain)));
    if ext.domain == [] then Verdict(false, InvalidFormat)
    else
      var clean := CleanCompany(companyName);
      FirstRelevant(Labels(ext), Normalize(clean), MainWords(ContentWords(Words(clean))))
  }

  /** The first label with a match decides; earlier labels had none. */
  lemma {:induction false} FirstRelevantAt(labels: seq<string>, name: string, main: seq<string>, i: nat)
    requires forall k | 0 <= k < |main| :: |main[k]| > 2
    requires i < |labels| && LabelMatch(labels[i], name, main).Some?
    requires forall j | 0 <= j < i :: LabelMatch(labels[j], name, main).None?
    ensures FirstRelevant(labels, name, main) == Verdict(true, LabelMatch(labels[i], name, main).value)
  {
    if i > 0 {
      assert LabelMatch(labels[0], name, main).None?;
      FirstRelevantAt(labels[1..], name, main, i - 1);
    }
  }

  lemma {:induction false} FirstRelevantNone(labels: seq<string>, name: string, main: seq<string>)
    requires forall k | 0 <= k < |main| :: |main[k]| > 2
    requires forall j | 0 <= j < |labels| :: LabelMatch(labels[j], name, main).None?
    ensures FirstRelevant(labels, name, main) == Verdict(false, Unrelated)
  {
    if labels != [] {
      assert LabelMatch(labels[0], name, main).None?;
      FirstRelevantNone(labels[1..], name, main);
    }
  }

  /** Relevant exactly when some label satisfies one of the four rules; the message is
      that of the first such label. */
  lemma RelevantIffSomeLabelMatches(labels: seq<string>, name: string, main: seq<string>)
    requires forall k | 0 <= k < |main| :: |main[k]| > 2
    ensures FirstRelevant(labels, name, main).ok <==>
      exists i | 0 <= i < |labels| :: LabelMatch(labels[i], name, main).Some?
    ensures !FirstRelevant(labels, name, main).ok ==> FirstRelevant(labels, name, main).message == Unrelated
  {
    if exists i | 0 <= i < |labels| :: LabelMatch(labels[i], name, main).Some? {
      var i := FirstIndex(labels, name, main);
      FirstRelevantAt(labels, name, main, i);
    } else {
      FirstRelevantNone(labels, name, main);
    }
  }

  lemma FirstIndex(labels: seq<string>, name: string, main: seq<string>) returns (i: nat)
    requires forall k | 0 <= k < |main| :: |main[k]| > 2
    requires exists i | 0 <= i < |labels| :: LabelMatch(labels[i], name, main).Some?
    ensures i < |labels| && LabelMatch(labels[i], name, main).Some?
    ensures forall j | 0 <= j < i :: LabelMatch(labels[j], name, main).None?
  {
    var hits := seq(|labels|, k requires 0 <= k < |labels| => LabelMatch(labels[k], name, main).Some?);
    var w :| 0 <= w < |labels| && LabelMatch(labels[w], name, main).Some?;
    assert hits[w];
    i := FirstTrue(hits, w);
    assert hits[i];
    forall j | 0 <= j < i ensures LabelMatch(labels[j], name, main).None? {
      assert !hits[j];
    }
  }

  /** The first index at which `hits` holds, given one at which it does. */
  lemma FirstTrue(hits: seq<bool>, w: nat) returns (i: nat)
    requires w < |hits| && hits[w]
    ensures i <= w && hits[i]
    ensures forall j | 0 <= j < i :: !hits[j]
  {
    i := 0;
    while !hits[i]
      invariant i <= w
      invariant forall j | 0 <= j < i :: !hits[j]
      decreases w - i
    {
      i := i + 1;
    }
  }

  lemma EmptyContained(s: string)
    ensures Contains(s, [])
  {
    assert OccursAt(s, [], 0);
  }

  /** A name that normalises to nothing matches the first label there is, because the
      empty string occurs in every label. */
  lemma EmptyNameAlwaysRelevant(domain: string, companyName: string, split: string -> DomainParts)
    requires split(Strip(Lower(domain))).domain != []
    requires Normalize(CleanCompany(companyName)) == []
    ensures Relevance(domain, companyName, split).ok
  {
    var clean := CleanCompany(companyName);
    var labels := Labels(split(Strip(Lower(domain))));
    var main := MainWords(ContentWords(Words(clean)));
    assert labels != [];
    EmptyNameFirstLabel(labels, main);
    assert Relevance(domain, companyName, split) == FirstRelevant(labels, [], main);
  }

  lemma EmptyNameFirstLabel(labels: seq<string>, main: seq<string>)
    requires forall k | 0 <= k < |main| :: |main[k]| > 2
    requires labels != []
    ensures FirstRelevant(labels, [], main).ok
  {
    EmptyContained(Normalize(labels[0]));
    assert LabelMatch(labels[0], [], main).Some?;
  }

  /** With fewer than two main words a label can match only by equality, containment
      or a contained word, never as an abbreviation. */
  lemma AbbreviationNeedsTwoWords(part: string, name: string, main: seq<string>)
    requires forall k | 0 <= k < |main| :: |main[k]| > 2
    requires |main| < 2 && LabelMatch(part, name, main).Some?
    ensures
      || name == Normalize(part)
      || Contains(Normalize(part), name)
      || exists w | w in main :: Contains(Normalize(part), Normalize(w))
  {
    var matches := WordMatches(main, Normalize(part));
    if matches != [] {
      assert matches[0] in main;
    }
  }

  /** Stop words and words of at most two characters never take part in word matching. */
  lemma MainWordsOnlyContent(clean: string)
    ensures forall w | w in MainWords(ContentWords(Words(clean))) :: w !in StopWords && |w| > 2 && w in Words(clean)
  {
    var content := ContentWords(Words(clean));
    forall w | w in MainWords(content) ensures w !in StopWords && |w| > 2 && w in Words(clean) {
      assert w in content;
    }
  }

  /** The main words of a company name: non-empty, so their initials are defined. */
  lemma MainWordsNonEmpty(main: seq<string>)
    requires forall k | 0 <= k < |main| :: |main[k]| > 2
    ensures forall k | 0 <= k < |main| :: main[k] != []
  {
  }

  /** Lines 158-161: the single pass over the suffix list. */
  method StripCompanySuffixes(name: string) returns (clean: string)
    ensures clean == StripSuffixes(name, Suffixes)
  {
    clean := name;
    for i := 0 to |Suffixes|
      invariant clean == StripSuffixes(name, Suffixes[..i])
    {
      var suffix := Suffixes[i];
      assert Suffixes[..i + 1][..i] == Suffixes[..i];
      assert StripSuffixes(name, Suffixes[..i + 1]) == DropSuffix(clean, suffix);
      if EndsWith(clean, suffix) {
        clean := Strip(clean[..|clean| - |suffix|]);
      }
    }
    assert Suffixes[..|Suffixes|] == Suffixes;
  }

  /** Lines 171-197 for one part, with the loop that collects `matches`. */
  method MatchPart(part: string, name: string, main: seq<string>) returns (r: Option<string>)
    requires forall i | 0 <= i < |main| :: |main[i]| > 2
    ensures r == LabelMatch(part, name, main)
  {
    var normalized := Normalize(part);
    if name == normalized {
      return Some("Domain part '" + part + "' exactly matches company name");
    }
    if Contains(normalized, name) {
      return Some("Domain part '" + part + "' contains full company name");
    }
    if main != [] {
      var matches: seq<string> := [];
      for m := 0 to |main|
        invariant matches == WordMatches(main[..m], normalized)
      {
        assert main[..m + 1] == main[..m] + [main[m]];
        WordMatchesAppend(main[..m], main[m], normalized);
        if Contains(normalized, Normalize(main[m])) {
          matches := matches + [main[m]];
        }
      }
      assert main[..|main|] == main;
      if matches != [] {
        return Some("Domain contains company name parts: " + Join(", ", matches));
      }
      if |main| > 1 {
        var abbrev := Initials(main);
        if Lower(abbrev) == normalized {
          return Some("Domain '" + part + "' matches company abbreviation (" + abbrev + ")");
        }
      }
    }
    return None;
  }

  /** Lines 135-199: the parts, the suffix pass, and the loop over the parts. */
  method ValidateDomainRelevance(domain: string, companyName: string, split: string -> DomainParts)
    returns (ok: bool, message: string)
    ensures Verdict(ok, message) == Relevance(domain, companyName, split)
  {
    var ext := split(Strip(Lower(domain)));
    if ext.domain == [] {
      return false, InvalidFormat;
    }
    var parts := Labels(ext);
    var clean := StripCompanySuffixes(Strip(Lower(companyName)));
    var normalizedName := Normalize(clean);
    var main := MainWords(ContentWords(Words(clean)));
    assert clean == CleanCompany(companyName);
    assert Relevance(domain, companyName, split) == FirstRelevant(parts, normalizedName, main);
    for k := 0 to |parts|
      invariant FirstRelevant(parts[k..], normalizedName, main) == FirstRelevant(parts, normalizedName, main)
    {
      var found := MatchPart(parts[k], normalizedName, main);
      FirstRelevantHead(parts[k..], normalizedName, main);
      assert parts[k..][0] == parts[k] && parts[k..][1..] == parts[k + 1..];
      if found.Some? {
        return true, found.value;
      }
    }
    assert parts[|parts|..] == [];
    return false, Unrelated;
  }

  lemma FirstRelevantHead(labels: seq<string>, name: string, main: seq<string>)
    requires forall i | 0 <= i < |main| :: |main[i]| > 2
    requires labels != []
    ensures FirstRelevant(labels, name, main) ==
      if LabelMatch(labels[0], name, main).Some? then Verdict(true, LabelMatch(labels[0], name, main).value)
      else FirstRelevant(labels[1..], name, main)
  {
  }

  lemma {:induction false} WordMatchesAppend(main: seq<string>, w: string, part: string)
    ensures WordMatches(main + [w], part) ==
      WordMatches(main, part) + (if Contains(part, Normalize(w)) then [w] else [])
  {
    if main == [] {
      assert [w][1..] == [];
    } else {
      assert (main + [w])[1..] == main[1..] + [w];
      WordMatchesAppend(main[1..], w, part);
    }
  }

  /* --------------------------------------------------- _clean_company_name */

  const BusinessWords: set<string> :=
    {"inc", "corp", "corporation", "llc", "ltd", "limited", "company",
     "co", "group", "holdings", "international", "global", "worldwide",
     "solutions", "services", "technologies", "systems", "software"}

  /** One step of lines 30-32: drop `suffix` when the name ends in a space and it. */
  function DropBusinessWord(s: string, suffix: string): string
  {
    if EndsWith(s, " " + suffix) then Strip(s[..|s| - |suffix|]) else s
  }

  /** The loop of lines 30-32 over the set, in the order `order` enumerates it. */
  function CleanName(s: string, order: seq<string>): string
  {
    if order == [] then s
    else DropBusinessWord(CleanName(s, order[..|order| - 1]), order[|order| - 1])
  }

  /** `order` lists the set once each: one possible iteration order of a Python set. */
  predicate Enumerates(order: seq<string>, words: set<string>)
  {
    && (forall i | 0 <= i < |order| :: order[i] in words)
    && (forall w | w in words :: w in order)
    && (forall i, j | 0 <= i < j < |order| :: order[i] != order[j])
  }

  lemma DropBusinessWordPrefix(s: string, suffix: string)
    requires Unpadded(s)
    ensures StartsWith(s, DropBusinessWord(s, suffix)) && Unpadded(DropBusinessWord(s, suffix))
  {
    if EndsWith(s, " " + suffix) {
      StripCutPrefix(s, |s| - |suffix|);
    }
  }

  /** Whatever the order, the cleaned name is a prefix of the lower-cased, trimmed name. */
  lemma {:induction false} CleanNamePrefix(s: string, order: seq<string>)
    requires Unpadded(s)
    ensures StartsWith(s, CleanName(s, order)) && Unpadded(CleanName(s, order))
  {
    if order != [] {
      var before := CleanName(s, order[..|order| - 1]);
      CleanNamePrefix(s, order[..|order| - 1]);
      DropBusinessWordPrefix(before, order[|order| - 1]);
      PrefixOfPrefix(s, before, DropBusinessWord(before, order[|order| - 1]));
    }
  }

  /** `_clean_company_name(name)`, the set iterated in the order `order`. */
  method CleanCompanyName(name: string, order: seq<string>) returns (r: string)
    requires Enumerates(order, BusinessWords)
    ensures r == CleanName(Strip(Lower(name)), order)
    ensures StartsWith(Strip(Lower(name)), r)
  {
    r := Strip(Lower(name));
    for i := 0 to |order|
      invariant r == CleanName(Strip(Lower(name)), order[..i])
    {
      assert order[..i + 1][..i] == order[..i];
      if EndsWith(r, " " + order[i]) {
        r := Strip(r[..|r| - |order[i]|]);
      }
    }
    assert order[..|order|] == order;
    StripOfUnpadded(Strip(Lower(name)));
    CleanNamePrefix(Strip(Lower(name)), order);
  }
}
