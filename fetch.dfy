/** `RealTimeScraper.fetch_price_data` and the retailer scrapers it calls.

    The outside world is a `Web`: a total function from the requests made so
    far and the next request to what that request retrieves, so a reply may
    depend on anything asked before (cookies, rate limits, bot detection).
    Every scraper threads the list of requests made, in order. */
module PriceFetch {
  import opened Text
  import opened PriceExtraction
  import opened SearchVariations
  import opened ProductFilter
  import opened Aggregation

  datatype Endpoint = WalmartSearch | TargetSearch | InstacartPublix | PublixSearch | GoogleShopping

  /** A page loaded in the browser driver, or fetched with the HTTP session. */
  datatype Channel = Browser | Http

  datatype Request = Request(endpoint: Endpoint, channel: Channel, query: string)

  /** What one request retrieves: a status and a parsed page, or an exception. */
  datatype Retrieval = Response(status: int, page: Page) | Raised

  type Web = (seq<Request>, Request) -> Retrieval

  /** Whether a browser driver could be started, and the web it talks to. */
  datatype Env = Env(hasDriver: bool, web: Web)

  /** The prices one step found, and every request made up to it. */
  datatype Scraped = Scraped(prices: seq<int>, trace: seq<Request>)

  /** The pool of prices collected so far, and every request made up to now. */
  datatype Progress = Progress(pool: seq<int>, trace: seq<Request>)

  /** The sources tried for every term, in this order. */
  datatype Source = Walmart | Target | Instacart | Publix

  const TermSources: seq<Source> := [Walmart, Target, Instacart, Publix]

  /** Collecting stops once the pool holds this many prices. */
  const EnoughPrices: nat := 5

  /** Retailer pages fetched over HTTP count only with status 200; browser
      pages and the Google Shopping fetch are read whatever their status. */
  predicate StatusChecked(req: Request) {
    req.channel == Http && req.endpoint != GoogleShopping
  }

  predicate AllPlausible(prices: seq<int>) {
    forall i :: 0 <= i < |prices| ==> Plausible(prices[i])
  }

  /** One page load and extraction; an exception yields no prices. */
  function Load(env: Env, trace: seq<Request>, req: Request): (r: Scraped)
    ensures r.trace == trace + [req]
    ensures AllPlausible(r.prices)
    ensures env.web(trace, req).Raised? ==> r.prices == []
    ensures StatusChecked(req) && env.web(trace, req).Response? && env.web(trace, req).status != 200
      ==> r.prices == []
    ensures env.web(trace, req).Response? && (!StatusChecked(req) || env.web(trace, req).status == 200)
      ==> r.prices == Extract(env.web(trace, req).page)
  {
    var prices :=
      (match env.web(trace, req)
       case Raised => []
       case Response(status, page) =>
         if StatusChecked(req) && status != 200 then []
         else (ExtractPlausible(page); Extract(page)));
    Scraped(prices, trace + [req])
  }

  /** The page a source opens in the browser. */
  function BrowserRequest(src: Source, term: string): (req: Request)
    ensures req.channel == Browser && req.query == term && req.endpoint != GoogleShopping
  {
    match src
    case Walmart => Request(WalmartSearch, Browser, term)
    case Target => Request(TargetSearch, Browser, term)
    case Instacart => Request(InstacartPublix, Browser, term)
    case Publix => Request(InstacartPublix, Browser, term)
  }

  /** The page a source falls back to over HTTP; Instacart has none. */
  function HttpRequest(src: Source, term: string): (req: Option<Request>)
    ensures req.None? <==> src == Instacart
    ensures req.Some? ==> req.value.channel == Http && req.value.query == term && StatusChecked(req.value)
  {
    match src
    case Walmart => Some(Request(WalmartSearch, Http, term))
    case Target => Some(Request(TargetSearch, Http, term))
    case Instacart => None
    case Publix => Some(Request(PublixSearch, Http, term))
  }

  /** The browser attempt, made only when a driver exists. */
  function Primary(src: Source, term: string, env: Env, trace: seq<Request>): (r: Scraped)
  {
    if env.hasDriver then Load(env, trace, BrowserRequest(src, term)) else Scraped([], trace)
  }

  /** One source for one term: the browser attempt, then the HTTP fallback
      only when the browser found nothing. */
  function Scrape(src: Source, term: string, env: Env, trace: seq<Request>): (r: Scraped)
    ensures AllPlausible(r.prices)
    ensures |trace| <= |r.trace| <= |trace| + 2 && r.trace[..|trace|] == trace
    ensures forall i :: |trace| <= i < |r.trace| ==>
      r.trace[i].query == term && r.trace[i].endpoint != GoogleShopping
    ensures !env.hasDriver ==> forall i :: |trace| <= i < |r.trace| ==> r.trace[i].channel == Http
  {
    var first := Primary(src, term, env, trace);
    if first.prices != [] || HttpRequest(src, term).None? then first
    else Load(env, first.trace, HttpRequest(src, term).value)
  }

  /** The HTTP fallback is requested exactly when the source has one and the
      browser attempt found nothing. */
  lemma ScrapeFallsBack(src: Source, term: string, env: Env, trace: seq<Request>)
    ensures var r := Scrape(src, term, env, trace);
      (exists i :: |trace| <= i < |r.trace| && r.trace[i].channel == Http) <==>
      HttpRequest(src, term).Some? && Primary(src, term, env, trace).prices == []
  {
    var first := Primary(src, term, env, trace);
    var r := Scrape(src, term, env, trace);
    if HttpRequest(src, term).Some? && first.prices == [] {
      assert r.trace[|r.trace| - 1] == HttpRequest(src, term).value;
    } else {
      assert r == first;
      forall i | |trace| <= i < |r.trace|
        ensures r.trace[i].channel == Browser
      {
        assert r.trace == trace + [BrowserRequest(src, term)];
      }
    }
  }

  /** The sources from the `j`-th on run in order for one term; each one's prices join the pool. */
  function RunSources(term: string, j: nat, env: Env, s: Progress): (r: Progress)
    requires j <= |TermSources|
    ensures |s.pool| <= |r.pool| && r.pool[..|s.pool|] == s.pool
    ensures |s.trace| <= |r.trace| <= |s.trace| + 2 * (|TermSources| - j) && r.trace[..|s.trace|] == s.trace
    ensures AllPlausible(s.pool) ==> AllPlausible(r.pool)
    ensures forall i :: |s.trace| <= i < |r.trace| ==>
      r.trace[i].query == term && r.trace[i].endpoint != GoogleShopping
    ensures !env.hasDriver ==> forall i :: |s.trace| <= i < |r.trace| ==> r.trace[i].channel == Http
    decreases |TermSources| - j, s
  {
    if j == |TermSources| then s
    else
      var found := Scrape(TermSources[j], term, env, s.trace);
      var mid := Progress(s.pool + found.prices, found.trace);
      var rest := RunSources(term, j + 1, env, mid);
      assert mid.pool[..|s.pool|] == s.pool;
      PrefixOfPrefix(s.pool, mid.pool, rest.pool);
      PrefixOfPrefix(s.trace, mid.trace, rest.trace);
      assert forall i :: |s.trace| <= i < |mid.trace| ==> rest.trace[i] == rest.trace[..|mid.trace|][i];
      rest
  }

  /** Running all four sources for one term. */
  function Step(term: string, env: Env, s: Progress): (r: Progress)
  {
    RunSources(term, 0, env, s)
  }

  /** A web on which no page yields a price: every request raises, or its
      page extracts to nothing. */
  ghost predicate Barren(env: Env) {
    forall h, req :: env.web(h, req).Response? ==> Extract(env.web(h, req).page) == []
  }

  /** The requests one source makes when it finds nothing: the browser page
      when there is a driver, then its HTTP fallback when it has one. */
  function SourceRequests(src: Source, term: string, hasDriver: bool): seq<Request>
  {
    (if hasDriver then [BrowserRequest(src, term)] else []) +
    (if HttpRequest(src, term).Some? then [HttpRequest(src, term).value] else [])
  }

  /** The requests of the sources from the `j`-th on, one source after the other. */
  function SourcesRequests(term: string, j: nat, hasDriver: bool): seq<Request>
    requires j <= |TermSources|
    decreases |TermSources| - j
  {
    if j == |TermSources| then []
    else SourceRequests(TermSources[j], term, hasDriver) + SourcesRequests(term, j + 1, hasDriver)
  }

  /** On a barren web a page load finds nothing. */
  lemma LoadBarren(env: Env, trace: seq<Request>, req: Request)
    requires Barren(env)
    ensures Load(env, trace, req) == Scraped([], trace + [req])
  {
    assert env.web(trace, req).Response? ==> Extract(env.web(trace, req).page) == [];
  }

  /** On a barren web a source makes every request it has, and finds nothing. */
  lemma ScrapeBarren(src: Source, term: string, env: Env, trace: seq<Request>)
    requires Barren(env)
    ensures Scrape(src, term, env, trace) == Scraped([], trace + SourceRequests(src, term, env.hasDriver))
  {
    var first := trace + (if env.hasDriver then [BrowserRequest(src, term)] else []);
    if env.hasDriver {
      LoadBarren(env, trace, BrowserRequest(src, term));
    }
    assert Primary(src, term, env, trace) == Scraped([], first);
    if HttpRequest(src, term).Some? {
      LoadBarren(env, first, HttpRequest(src, term).value);
    }
  }

  /** On a web where every source finds nothing, the sources from the `j`-th
      on make their requests in the order of `TermSources`, and the pool
      stays as it was. */
  lemma {:induction false} RunSourcesBarren(term: string, j: nat, env: Env, s: Progress)
    requires j <= |TermSources|
    requires forall src, tr :: Scrape(src, term, env, tr) == Scraped([], tr + SourceRequests(src, term, env.hasDriver))
    ensures RunSources(term, j, env, s) == Progress(s.pool, s.trace + SourcesRequests(term, j, env.hasDriver))
    decreases |TermSources| - j
  {
    if j < |TermSources| {
      var mid := Progress(s.pool, s.trace + SourceRequests(TermSources[j], term, env.hasDriver));
      BarrenSourceStep(term, j, env, s);
      RunSourcesBarren(term, j + 1, env, mid);
      SourcesRequestsStep(term, j, env.hasDriver, s.trace);
    }
  }

  /** One source's step of RunSources when it finds nothing. */
  lemma BarrenSourceStep(term: string, j: nat, env: Env, s: Progress)
    requires j < |TermSources|
    requires Scrape(TermSources[j], term, env, s.trace) ==
             Scraped([], s.trace + SourceRequests(TermSources[j], term, env.hasDriver))
    ensures RunSources(term, j, env, s) ==
            RunSources(term, j + 1, env, Progress(s.pool, s.trace + SourceRequests(TermSources[j], term, env.hasDriver)))
  {
    RunSourcesUnfold(term, j, env, s);
    assert s.pool + [] == s.pool;
  }

  /** The requests of the `j`-th source come right before those of the later ones. */
  lemma SourcesRequestsStep(term: string, j: nat, d: bool, t: seq<Request>)
    requires j < |TermSources|
    ensures t + SourceRequests(TermSources[j], term, d) + SourcesRequests(term, j + 1, d) ==
            t + SourcesRequests(term, j, d)
  {
  }

  /** On a barren web every source finds nothing. */
  lemma SourcesBarren(term: string, env: Env)
    requires Barren(env)
    ensures forall src, tr :: Scrape(src, term, env, tr) == Scraped([], tr + SourceRequests(src, term, env.hasDriver))
  {
    forall src, tr
      ensures Scrape(src, term, env, tr) == Scraped([], tr + SourceRequests(src, term, env.hasDriver))
    {
      ScrapeBarren(src, term, env, tr);
    }
  }

  /** One source's step of RunSources. */
  lemma RunSourcesUnfold(term: string, j: nat, env: Env, s: Progress)
    requires j < |TermSources|
    ensures var found := Scrape(TermSources[j], term, env, s.trace);
            RunSources(term, j, env, s) == RunSources(term, j + 1, env, Progress(s.pool + found.prices, found.trace))
  {
  }

  /** The sources' requests, written out source by source. */
  lemma SourcesInOrder(term: string, d: bool)
    ensures SourcesRequests(term, 0, d) ==
            SourceRequests(Walmart, term, d) + SourceRequests(Target, term, d) +
            SourceRequests(Instacart, term, d) + SourceRequests(Publix, term, d)
  {
    var p := SourceRequests(Publix, term, d);
    assert SourcesRequests(term, 3, d) == p + [] == p;
  }

  /** With a driver: each source's browser page, then its HTTP fallback. */
  lemma DriverRequests(term: string)
    ensures SourcesRequests(term, 0, true) == [
              Request(WalmartSearch, Browser, term), Request(WalmartSearch, Http, term),
              Request(TargetSearch, Browser, term), Request(TargetSearch, Http, term),
              Request(InstacartPublix, Browser, term),
              Request(InstacartPublix, Browser, term), Request(PublixSearch, Http, term)]
  {
    SourcesInOrder(term, true);
  }

  /** Without a driver: the HTTP pages of Walmart, Target and Publix. */
  lemma HttpOnlyRequests(term: string)
    ensures SourcesRequests(term, 0, false) == [
              Request(WalmartSearch, Http, term), Request(TargetSearch, Http, term),
              Request(PublixSearch, Http, term)]
  {
    SourcesInOrder(term, false);
  }

  /** On a barren web one term makes the requests of the sources in order,
      Walmart, Target, Instacart, Publix, each source's browser page (when
      there is a driver) before its HTTP fallback, and the pool is unchanged. */
  lemma StepOrder(term: string, env: Env, s: Progress)
    requires Barren(env)
    ensures Step(term, env, s) == Progress(s.pool, s.trace + SourcesRequests(term, 0, env.hasDriver))
    ensures env.hasDriver ==> Step(term, env, s).trace == s.trace + [
              Request(WalmartSearch, Browser, term), Request(WalmartSearch, Http, term),
              Request(TargetSearch, Browser, term), Request(TargetSearch, Http, term),
              Request(InstacartPublix, Browser, term),
              Request(InstacartPublix, Browser, term), Request(PublixSearch, Http, term)]
    ensures !env.hasDriver ==> Step(term, env, s).trace == s.trace + [
              Request(WalmartSearch, Http, term), Request(TargetSearch, Http, term),
              Request(PublixSearch, Http, term)]
  {
    SourcesBarren(term, env);
    RunSourcesBarren(term, 0, env, s);
    if env.hasDriver {
      DriverRequests(term);
    } else {
      HttpOnlyRequests(term);
    }
  }

  /** The terms in order, stopping after the first term that leaves at least
      five prices in the pool. */
  function RunTerms(terms: seq<string>, env: Env, s: Progress): (r: Progress)
    decreases |terms|
  {
    if terms == [] then s
    else
      var next := Step(terms[0], env, s);
      if |next.pool| >= EnoughPrices then next else RunTerms(terms[1..], env, next)
  }

  /** RunTerms only appends to the pool, and only plausible prices. */
  lemma {:induction false} RunTermsPool(terms: seq<string>, env: Env, s: Progress)
    ensures var r := RunTerms(terms, env, s);
      |s.pool| <= |r.pool| && r.pool[..|s.pool|] == s.pool &&
      (AllPlausible(s.pool) ==> AllPlausible(r.pool))
    decreases |terms|
  {
    if terms != [] {
      var next := Step(terms[0], env, s);
      if |next.pool| < EnoughPrices {
        RunTermsPool(terms[1..], env, next);
        PrefixOfPrefix(s.pool, next.pool, RunTerms(terms[1..], env, next).pool);
      }
    }
  }

  lemma PrefixOfPrefix<T>(a: seq<T>, b: seq<T>, c: seq<T>)
    requires |a| <= |b| && b[..|a|] == a
    requires |b| <= |c| && c[..|b|] == b
    ensures c[..|a|] == a
  {
    assert c[..|a|] == c[..|b|][..|a|];
  }

  /** RunTerms only appends to the trace, at most eight requests per term. */
  lemma {:induction false} RunTermsTrace(terms: seq<string>, env: Env, s: Progress)
    ensures var r := RunTerms(terms, env, s);
      |s.trace| <= |r.trace| <= |s.trace| + 8 * |terms| && r.trace[..|s.trace|] == s.trace
    decreases |terms|
  {
    if terms != [] {
      var next := Step(terms[0], env, s);
      if |next.pool| < EnoughPrices {
        RunTermsTrace(terms[1..], env, next);
        PrefixOfPrefix(s.trace, next.trace, RunTerms(terms[1..], env, next).trace);
      }
    }
  }

  /** Every request RunTerms makes is for one of the terms and none goes to
      Google Shopping; all are over HTTP when there is no driver. */
  lemma {:induction false} RunTermsRequests(terms: seq<string>, env: Env, s: Progress)
    ensures var r := RunTerms(terms, env, s);
      (forall i :: |s.trace| <= i < |r.trace| ==>
         r.trace[i].query in terms && r.trace[i].endpoint != GoogleShopping) &&
      (!env.hasDriver ==> forall i :: |s.trace| <= i < |r.trace| ==> r.trace[i].channel == Http)
    decreases |terms|
  {
    if terms != [] {
      var next := Step(terms[0], env, s);
      if |next.pool| < EnoughPrices {
        RunTermsRequests(terms[1..], env, next);
        RunTermsTrace(terms[1..], env, next);
        TraceJoin(terms, env, s.trace, next.trace, RunTerms(terms[1..], env, next).trace);
      }
    }
  }

  /** The requests of one term's step followed by those of the later terms. */
  lemma TraceJoin(terms: seq<string>, env: Env, a: seq<Request>, b: seq<Request>, c: seq<Request>)
    requires terms != []
    requires |a| <= |b| <= |c| && c[..|b|] == b
    requires forall i :: |a| <= i < |b| ==> b[i].query == terms[0] && b[i].endpoint != GoogleShopping
    requires !env.hasDriver ==> forall i :: |a| <= i < |b| ==> b[i].channel == Http
    requires forall i :: |b| <= i < |c| ==> c[i].query in terms[1..] && c[i].endpoint != GoogleShopping
    requires !env.hasDriver ==> forall i :: |b| <= i < |c| ==> c[i].channel == Http
    ensures forall i :: |a| <= i < |c| ==> c[i].query in terms && c[i].endpoint != GoogleShopping
    ensures !env.hasDriver ==> forall i :: |a| <= i < |c| ==> c[i].channel == Http
  {
    forall i | |a| <= i < |c|
      ensures c[i].query in terms && c[i].endpoint != GoogleShopping
      ensures !env.hasDriver ==> c[i].channel == Http
    {
      if i < |b| {
        assert c[i] == c[..|b|][i];
      } else {
        assert c[i].query in terms[1..];
      }
    }
  }

  /** The terms in order, without the early stop. */
  function RunAllTerms(terms: seq<string>, env: Env, s: Progress): (r: Progress)
    decreases |terms|
  {
    if terms == [] then s else RunAllTerms(terms[1..], env, Step(terms[0], env, s))
  }

  /** How many terms RunTerms searches before it stops. */
  function TermsTried(terms: seq<string>, env: Env, s: Progress): (n: nat)
    ensures n <= |terms|
    ensures terms != [] ==> n >= 1
    decreases |terms|
  {
    if terms == [] then 0
    else if |Step(terms[0], env, s).pool| >= EnoughPrices then 1
    else 1 + TermsTried(terms[1..], env, Step(terms[0], env, s))
  }

  /** The query Google Shopping is asked as the last resort. */
  function GoogleQuery(itemName: string, city: string): (q: string)
  {
    itemName + " price " + city + " Florida grocery store"
  }

  /** The fallback request: in the browser when a driver exists, else over HTTP. */
  function GoogleRequest(itemName: string, city: string, env: Env): (req: Request)
    ensures req.endpoint == GoogleShopping && !StatusChecked(req)
    ensures req.channel == (if env.hasDriver then Browser else Http)
  {
    Request(GoogleShopping, if env.hasDriver then Browser else Http, GoogleQuery(itemName, city))
  }

  /** The filtered, trimmed mean of a pool, in cents. */
  function Estimate(pool: seq<int>, itemName: string): (m: Option<real>)
    ensures m.None? <==> pool == []
  {
    TrimmedMean(FilterByProductType(pool, itemName))
  }

  /** The whole pipeline: what `fetch_price_data` answers, in cents, and every
      request it makes. */
  datatype Answer = Answer(price: Option<real>, trace: seq<Request>)

  function Discover(itemName: string, city: string, env: Env): (a: Answer)
  {
    var collected := RunTerms(TriedTerms(itemName), env, Progress([], []));
    var final :=
      if collected.pool == [] then
        var g := Load(env, collected.trace, GoogleRequest(itemName, city, env));
        Progress(g.prices, g.trace)
      else collected;
    Answer(Estimate(final.pool, itemName), final.trace)
  }

  /** RunTerms is RunAllTerms over the terms it tried. */
  lemma {:induction false} RunTermsIsPrefixRun(terms: seq<string>, env: Env, s: Progress)
    ensures RunTerms(terms, env, s) == RunAllTerms(terms[..TermsTried(terms, env, s)], env, s)
    decreases |terms|
  {
    if terms != [] {
      var next := Step(terms[0], env, s);
      PrefixRun(terms, TermsTried(terms, env, s), env, s);
      if |next.pool| < EnoughPrices {
        RunTermsIsPrefixRun(terms[1..], env, next);
      }
    }
  }

  /** RunTerms stops before the last term only with at least five prices,
      and every shorter run of the terms it tried left fewer than five. */
  lemma {:induction false} RunTermsStopsEarly(terms: seq<string>, env: Env, s: Progress)
    ensures var n := TermsTried(terms, env, s);
      (n < |terms| ==> |RunTerms(terms, env, s).pool| >= EnoughPrices) &&
      (forall j :: 1 <= j < n ==> |RunAllTerms(terms[..j], env, s).pool| < EnoughPrices)
    decreases |terms|
  {
    if terms != [] {
      var next := Step(terms[0], env, s);
      var n := TermsTried(terms, env, s);
      if |next.pool| < EnoughPrices {
        RunTermsStopsEarly(terms[1..], env, next);
        forall j | 1 <= j < n
          ensures |RunAllTerms(terms[..j], env, s).pool| < EnoughPrices
        {
          PrefixRun(terms, j, env, s);
        }
      }
    }
  }

  /** Running a non-empty prefix is one step, then the rest of the prefix. */
  lemma PrefixRun(terms: seq<string>, j: nat, env: Env, s: Progress)
    requires 1 <= j <= |terms|
    ensures RunAllTerms(terms[..j], env, s) == RunAllTerms(terms[1..][..j - 1], env, Step(terms[0], env, s))
  {
    assert terms[..j][0] == terms[0];
    assert terms[..j][1..] == terms[1..][..j - 1];
  }

  /** What the terms collected before any fallback. */
  function Collected(itemName: string, env: Env): (p: Progress)
  {
    RunTerms(TriedTerms(itemName), env, Progress([], []))
  }

  /** The requests of a run: those of the terms, then one Google Shopping
      request exactly when the terms found nothing. */
  lemma DiscoverTrace(itemName: string, city: string, env: Env)
    ensures var c := Collected(itemName, env);
      Discover(itemName, city, env).trace ==
        c.trace + (if c.pool == [] then [GoogleRequest(itemName, city, env)] else [])
  {
  }

  /** Google Shopping is asked at most once, last, with the original item
      name, and only when no retailer search found a price. */
  lemma GoogleOnlyAsLastResort(itemName: string, city: string, env: Env)
    ensures var a := Discover(itemName, city, env);
      (forall i :: 0 <= i < |a.trace| && a.trace[i].endpoint == GoogleShopping ==>
         i == |a.trace| - 1 && a.trace[i] == GoogleRequest(itemName, city, env)) &&
      ((exists i :: 0 <= i < |a.trace| && a.trace[i].endpoint == GoogleShopping) <==>
         Collected(itemName, env).pool == [])
  {
    var c := Collected(itemName, env);
    var a := Discover(itemName, city, env);
    var g := GoogleRequest(itemName, city, env);
    DiscoverTrace(itemName, city, env);
    CollectedNoGoogle(itemName, env);
    if c.pool == [] {
      assert a.trace == c.trace + [g];
      assert a.trace[|c.trace|] == g;
      assert forall i :: 0 <= i < |c.trace| ==> a.trace[i] == c.trace[i];
    } else {
      assert a.trace == c.trace;
    }
  }

  /** The retailer searches never ask Google Shopping. */
  lemma CollectedNoGoogle(itemName: string, env: Env)
    ensures forall i :: 0 <= i < |Collected(itemName, env).trace| ==>
              Collected(itemName, env).trace[i].endpoint != GoogleShopping
  {
    NoGoogleFromStart(TriedTerms(itemName), env);
  }

  lemma NoGoogleFromStart(terms: seq<string>, env: Env)
    ensures forall i :: 0 <= i < |RunTerms(terms, env, Progress([], [])).trace| ==>
              RunTerms(terms, env, Progress([], [])).trace[i].endpoint != GoogleShopping
  {
    RunTermsRequests(terms, env, Progress([], []));
  }

  /** The pool the answer is computed from. */
  function FinalPool(itemName: string, city: string, env: Env): (pool: seq<int>)
    ensures AllPlausible(pool)
  {
    var c := Collected(itemName, env);
    RunTermsPool(TriedTerms(itemName), env, Progress([], []));
    if c.pool == [] then Load(env, c.trace, GoogleRequest(itemName, city, env)).prices else c.pool
  }

  /** There is an answer exactly when the final pool holds a price, and it
      is the estimate from that pool. */
  lemma AnswerFromFinalPool(itemName: string, city: string, env: Env)
    ensures Discover(itemName, city, env).price == Estimate(FinalPool(itemName, city, env), itemName)
    ensures Discover(itemName, city, env).price.None? <==> FinalPool(itemName, city, env) == []
  {
  }

  /** Every answer is a price strictly between 50 cents and 200 dollars. */
  lemma AnswerPlausible(itemName: string, city: string, env: Env)
    ensures var p := Discover(itemName, city, env).price;
      p.Some? ==> 51.0 <= p.value <= 19999.0
  {
    var pool := FinalPool(itemName, city, env);
    AnswerFromFinalPool(itemName, city, env);
    if pool != [] {
      var filtered := FilterByProductType(pool, itemName);
      forall i | 0 <= i < |filtered|
        ensures 51 <= filtered[i] <= 19999
      {
        assert filtered[i] in multiset(pool);
        var k :| 0 <= k < |pool| && pool[k] == filtered[i];
        assert Plausible(pool[k]);
      }
      TrimmedMeanWithin(filtered, 51, 19999);
    }
  }

  /** A single-serving drink with five in-band candidates and one dearer
      one (a multi-pack, say): the filter drops the dear one, the trim drops
      the cheapest and the dearest of the rest, and the answer is the mean of
      the middle three. With 1.89, 1.95, 1.99, 2.05, 2.10 and 10.50 dollars
      that is 5.99 / 3 dollars. */
  lemma SingleDrinkOutlier(itemName: string, p: seq<int>, x: int)
    requires Classify(itemName) == BeverageSingle
    requires |p| == 5 && Sorted(p)
    requires forall i :: 0 <= i < 5 ==> 50 <= p[i] <= 500
    requires x > 500
    ensures Estimate(p + [x], itemName) == Some((p[1] + p[2] + p[3]) as real / 3.0)
  {
    var b := Band(50, 500);
    assert FilterByProductType(p + [x], itemName) == p by {
      FilterFollowsEnvelope(p + [x], itemName);
      WithinConcat(p, [x], b);
      WithinAll(p, b);
      assert Within([x], b) == [];
    }
    FiveSortedMean(p);
  }

  // ---------------------------------------------------------------------
  // The imperative scraper, step for step.

  /** Load one page and run the extractor on it. */
  method LoadPage(env: Env, trace: seq<Request>, req: Request) returns (prices: seq<int>, after: seq<Request>)
    ensures Scraped(prices, after) == Load(env, trace, req)
  {
    prices := [];
    var reply := env.web(trace, req);
    if reply.Response? && (!StatusChecked(req) || reply.status == 200) {
      prices := ExtractPrices(reply.page);
    }
    after := trace + [req];
  }

  /** `_scrape_walmart`, `_scrape_target`, `_scrape_instacart`, `_scrape_publix_api`. */
  method ScrapeSource(src: Source, term: string, env: Env, trace: seq<Request>)
    returns (prices: seq<int>, after: seq<Request>)
    ensures Scraped(prices, after) == Scrape(src, term, env, trace)
  {
    prices := [];
    after := trace;
    if env.hasDriver {
      prices, after := LoadPage(env, after, BrowserRequest(src, term));
    }
    var fallback := HttpRequest(src, term);
    if prices == [] && fallback.Some? {
      prices, after := LoadPage(env, after, fallback.value);
    }
  }

  /** One pass of the inner loop of `fetch_price_data`: every source for one term. */
  method SearchTerm(term: string, env: Env, pool: seq<int>, trace: seq<Request>)
    returns (pool': seq<int>, trace': seq<Request>)
    ensures Progress(pool', trace') == Step(term, env, Progress(pool, trace))
  {
    pool', trace' := pool, trace;
    for j := 0 to |TermSources|
      invariant RunSources(term, j, env, Progress(pool', trace')) == Step(term, env, Progress(pool, trace))
    {
      var found;
      found, trace' := ScrapeSource(TermSources[j], term, env, trace');
      if found != [] {
        pool' := pool' + found;
      }
    }
  }

  /** The tail of `fetch_price_data`: filter, sort, trim a fifth at each end
      when there are more than four prices, average. */
  method Summarize(pool: seq<int>, itemName: string) returns (price: Option<real>)
    ensures price == Estimate(pool, itemName)
  {
    if pool == [] {
      assert FilterByProductType(pool, itemName) == [];
      return None;
    }
    var filtered := FilterByProductType(pool, itemName);
    var sorted := Sort(filtered);
    var kept := sorted;
    if |sorted| > 4 {
      var trim := |sorted| / 5;
      kept := if trim > 0 then sorted[trim..|sorted| - trim] else sorted;
    }
    assert kept == Trim(sorted);
    price := Some(Mean(kept));
  }

  /** `fetch_price_data`. */
  method FetchPriceData(itemName: string, city: string, env: Env) returns (price: Option<real>, trace: seq<Request>)
    ensures Answer(price, trace) == Discover(itemName, city, env)
  {
    var pool: seq<int> := [];
    trace := [];
    var terms := TriedTerms(itemName);
    ghost var collected := RunTerms(terms, env, Progress([], []));
    var i := 0;
    while i < |terms|
      invariant 0 <= i <= |terms|
      invariant RunTerms(terms[i..], env, Progress(pool, trace)) == collected
    {
      pool, trace := SearchTerm(terms[i], env, pool, trace);
      assert terms[i..][1..] == terms[i + 1..];
      if |pool| >= EnoughPrices {
        break;
      }
      i := i + 1;
    }
    assert Progress(pool, trace) == collected;
    if pool == [] {
      pool, trace := LoadPage(env, trace, GoogleRequest(itemName, city, env));
    }
    price := Summarize(pool, itemName);
  }
}
