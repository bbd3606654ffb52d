# Florida live pricing engine: a verified model of its core

The system estimates what a grocery item costs in a Florida city. It has three parts.

- **`RealTimeScraper.fetch_price_data`** does the price discovery:
  - It expands the item name into search terms and tries the first three.
  - For each term it asks four retailer scrapers in order (Walmart, Target, Instacart, Publix). When a browser driver exists, each scraper first loads its page in the browser. Walmart, Target and Publix then fall back to a plain HTTP page when the browser found nothing; Instacart has no fallback.
  - It stops after a term once five prices have been collected.
  - If nothing was found it asks Google Shopping once.
  - It then keeps the prices inside the product's price band, sorts them, drops a fifth at each end and averages the rest.
- **`ReferenceModel`** maps a city to coordinates and computes a regional price multiplier. The multiplier interpolates six hub indices by inverse squared distance.
- **`GeocodingService`** turns Nominatim replies into results:
  - A limiter keeps requests one second apart.
  - A reverse lookup picks the city field and checks the address is in Florida.
  - A forward lookup reads the first place found.

## How the model is built

- **Prices** are integer cents.
  - The plausibility bound `0.50 < p < 200` becomes `50 < c < 20000`, and the bands become integer intervals.
  - The mean is an exact `real` in cents.
- **The outside world is a parameter.**
  - A `Web` is a total function from the requests made so far and the next request to what that request retrieves: a status and a parsed page, or an exception.
  - Every scraper threads the list of requests it made. This is how call order, fallbacks and "Google only as a last resort" can be stated.
  - Whether a browser driver exists (`Env.hasDriver`) is part of the environment.
- **A parsed page** (`PriceExtraction.Page`) is what the HTML library would hand over: the element texts each CSS selector matches, the decoded JSON-LD records, and the page text.
  - The two regular expressions are modelled exactly on ASCII text: `\d` is an ASCII digit and `\s` is any ASCII character Python counts as whitespace (space, tab through carriage return, and the separators 0x1C to 0x1F).
  - Python's `float` on a captured group is `ParseCents`. `CapturesConvert` shows that every captured group converts, so the `except` around that conversion is never taken.
- **Imperative code keeps its form.** The loops of `fetch_price_data`, of the extractor and of `get_regional_multiplier` are methods with loop invariants. Each method is proved equal to a specification function (`Discover`, `Extract`, `Interpolate`), and the properties are lemmas about those functions.
- **The geocoding clock and limiter** are classes. `GeocodingService` keeps `lastRequestTime`; the `Clock` keeps the time and a log of sleeps and requests sent.
  - The limiter's methods state the sleep taken, the new stamp and the new log.
  - Their invariant `Coherent` says the requests on the log are at least one interval apart.
- **"cola" is a substring of "chocolate".** A chocolate item name therefore always takes the cola branch, both when terms are expanded and when prices are filtered. The model keeps this behaviour as written:
  - `SearchVariations.ChocolateSearchesCola` proves that every term tried after the name is a "coca cola" variant.
  - `ProductFilter.NoConfection` proves that the filter's chocolate branch is unreachable.

## Model

| member | source | states |
|---|---|---|
| SearchVariations.SearchTerms | scrapper.py:341-364 | the term list is never empty and starts with the item name exactly as given |
| SearchVariations.TriedTerms | scrapper.py:367 | between one and three terms are searched, and they are the first terms of the expansion, in order, starting with the item name |
| SearchVariations.SingleColaTerms | scrapper.py:344-348 | a name with a cola keyword, without "coca cola" and without pack/case/12/24 searches itself, "coca cola 20 oz", "coca cola can" |
| SearchVariations.PackColaTerms | scrapper.py:344-348 | with one of pack/case/12/24 the same name searches itself, "coca cola", "coca cola 2 liter" |
| SearchVariations.CocaColaTerms | scrapper.py:349-350 | a name containing "coca cola" searches itself, "coca cola 2 liter", "coca cola 20 oz" |
| SearchVariations.BottleNeverTried | scrapper.py:347-367 | "coca cola bottle" is expanded as the fourth term of a single-serving cola search but never searched |
| SearchVariations.DrinkTermsSoda | scrapper.py:344-352 | the drink variations contain "soda 2 liter" if and only if no cola keyword occurs and "soda" or "pop" does |
| SearchVariations.SodaTerm | scrapper.py:344-364 | the same holds for the whole expansion after the name: the soda rule fires exactly when neither cola branch did |
| SearchVariations.SnackTermsNotSoda | scrapper.py:355-364 | no chip or chocolate variation is "soda 2 liter" |
| SearchVariations.ChipBagTerms | scrapper.py:355-358 | a chip name without bag/family and without drink keywords searches itself, itself plus " bag" in the caller's spelling, then "potato chips" |
| SearchVariations.ChocolateBarTerms | scrapper.py:361-364 | a chocolate name without "bar" expands, at the end of the list, to itself plus " bar" in the caller's spelling and then "chocolate bar" |
| SearchVariations.ChocolateIsCola | scrapper.py:344-361 | every name containing "chocolate" contains a cola keyword |
| SearchVariations.ColaSearchTerms | scrapper.py:344-367 | a cola name searches one of exactly three variant pairs after the name |
| SearchVariations.ChocolateSearchesCola | scrapper.py:344-367 | a chocolate search tries only "coca cola" variants after the name, and neither chocolate variant is ever searched |
| PriceExtraction.FindAll | scrapper.py:138 | `findall` of a pattern: the groups of the leftmost non-overlapping matches, in order; `MatchAt`, `MatchConverts` and `CapturesConvert` carry its properties |
| PriceExtraction.ParseCents | scrapper.py:141 | `float` on a captured group, in cents: never negative; `MatchConverts` and `CapturesConvert` show every captured group converts |
| PriceExtraction.MatchAt | scrapper.py:138 | a match at a position consumes at least one character and no more than the text holds |
| PriceExtraction.MatchConverts | scrapper.py:138-141 | the group of any match of either pattern converts to a number |
| PriceExtraction.CapturesConvert | scrapper.py:138-145 | every group `findall` captures converts, so the conversion never raises |
| PriceExtraction.Admit | scrapper.py:139-145 | one captured string adds at most one price, and only a plausible one |
| PriceExtraction.Admitted | scrapper.py:139-145 | a list of captures adds at most one price per capture, all plausible |
| PriceExtraction.AdmittedExactly | scrapper.py:139-145 | for captures, a value is admitted if and only if some capture converts to it and it lies strictly between 50 and 20000 cents |
| PriceExtraction.AdmitOne | scrapper.py:140-145 | the loop body appends the capture's admitted value to the prices so far |
| PriceExtraction.AdmitEach | scrapper.py:139-145 | the conversion loop appends exactly the admitted values of the captures, in capture order |
| PriceExtraction.ReadElement | scrapper.py:136-145 | one element adds the admitted loose-pattern captures of its text with commas removed |
| PriceExtraction.ReadElements | scrapper.py:135-145 | the elements of one selector add their prices element by element |
| PriceExtraction.SelectorLayer | scrapper.py:133-145 | every price of the selector layer is plausible |
| PriceExtraction.SelectorLayerStep | scrapper.py:133-135 | each further selector appends the prices of its first 15 elements |
| PriceExtraction.SelectorLayerReadsFifteen | scrapper.py:135 | pages that agree on the first 15 elements of every selector have the same selector layer |
| PriceExtraction.ReadJsonLd | scrapper.py:148-163 | the JSON-LD loop appends at most one price per record: from an `offers` object when there is one, else from the record's own price |
| PriceExtraction.OffersObjectShadowsPrice | scrapper.py:153-158 | a record whose `offers` is an object is priced by `offers` alone, even when that has no price and the record has one |
| PriceExtraction.TextLayerAtMostTwenty | scrapper.py:167-169 | the free-text layer contributes at most 20 prices |
| PriceExtraction.Extract | scrapper.py:116-177 | the extractor as a function: the selector layer, the JSON-LD layer, then the free-text layer; `ExtractPlausible` and `ExtractPrices` carry its properties |
| PriceExtraction.ExtractPrices | scrapper.py:116-177 | the extractor returns the selector layer, then the JSON-LD layer, then the free-text layer |
| PriceExtraction.ExtractPlausible | scrapper.py:142-173 | every price any layer admits lies strictly between 50 and 20000 cents |
| ProductFilter.Within | scrapper.py:298 | the band restriction never lengthens the list |
| ProductFilter.WithinExactly | scrapper.py:298 | the band restriction keeps exactly the in-band prices, each as often as it occurs |
| ProductFilter.WithinConcat | scrapper.py:298 | the band restriction distributes over concatenation |
| ProductFilter.WithinAll | scrapper.py:298 | a list entirely inside the band is kept whole |
| ProductFilter.Prefer | scrapper.py:298-303 | preferring a band yields an empty list only for an empty input, and only elements of the input |
| ProductFilter.FilterByProductType | scrapper.py:287-329 | a non-empty pool never filters to an empty list, and the result is a sub-multiset of the pool |
| ProductFilter.Envelope | scrapper.py:293-327 | single drinks, chips and single chocolate have a positive band; bulk drinks, multi-packs and other items have none |
| ProductFilter.FilterFollowsEnvelope | scrapper.py:293-329 | the filter, with its branches tested in the order beverage, chip, chocolate, default, is the whole pool or the pool's prices in the category's band |
| ProductFilter.FilterWithBand | scrapper.py:296-329 | with a band and some in-band price, a price survives if and only if it is in the pool and in band; with no in-band price the pool is kept |
| ProductFilter.FilterWithoutBand | scrapper.py:304-327 | without a band the pool is returned unchanged |
| ProductFilter.NoConfection | scrapper.py:293-315 | no item name is ever classified as chocolate |
| Aggregation.Insert | scrapper.py:403 | inserting into a sorted list gives a sorted list with one more element and the element added to its multiset |
| Aggregation.Sort | scrapper.py:403 | sorting yields a sorted permutation of the input |
| Aggregation.SortedUnique | scrapper.py:403 | two sorted lists with the same elements are equal |
| Aggregation.SortOrderFree | scrapper.py:403 | sorting depends only on the multiset of the prices |
| Aggregation.SortSorted | scrapper.py:403 | sorting a sorted list changes nothing |
| Aggregation.TrimCount | scrapper.py:404-407 | more than four prices lose at least one at each end and keep at least three; four or fewer lose none |
| Aggregation.Trim | scrapper.py:404-407 | trimming drops the same number from each end and keeps a non-empty list non-empty |
| Aggregation.TrimDropsExtremes | scrapper.py:402-407 | in a sorted list the dropped prices bound every kept one from below and from above |
| Aggregation.MeanBounds | scrapper.py:410 | the mean lies between any lower and upper bound of the values |
| Aggregation.TrimmedMean | scrapper.py:398-414 | there is no estimate if and only if the pool is empty |
| Aggregation.TrimmedMeanWithin | scrapper.py:402-410 | the trimmed mean lies within any bounds of the pool |
| Aggregation.TrimmedMeanOrderFree | scrapper.py:403-410 | the estimate does not depend on the order the prices were found in |
| Aggregation.FiveSortedMean | scrapper.py:404-410 | of five sorted prices the lowest and highest are dropped and the middle three averaged |
| PriceFetch.Load | scrapper.py:107-110 | a page load records its request; an exception, or a non-200 status on a retailer's HTTP page, yields nothing; otherwise it yields the page's extraction, all plausible |
| PriceFetch.BrowserRequest | scrapper.py:85-88 | the browser attempt asks a retailer endpoint, never Google, for the term |
| PriceFetch.HttpRequest | scrapper.py:97-107 | every source but Instacart has an HTTP fallback for the same term, and its status is checked |
| PriceFetch.Scrape | scrapper.py:80-259 | one source adds at most two requests, all for its term and none to Google, all over HTTP without a driver; its prices are plausible |
| PriceFetch.ScrapeFallsBack | scrapper.py:84-114 | the HTTP page is requested if and only if the source has one and the browser attempt found no price |
| PriceFetch.LoadPage | scrapper.py:107-110 | the imperative page load equals `Load` |
| PriceFetch.ScrapeSource | scrapper.py:80-259 | the four retailer scrapers, statement for statement, equal `Scrape` |
| PriceFetch.RunSources | scrapper.py:371-386 | the sources only append to the pool and to the requests, keep the pool plausible, and ask only for the term, never Google |
| PriceFetch.ScrapeBarren | scrapper.py:80-259 | on a web where no page yields a price, a source asks its browser page when there is a driver, then its HTTP fallback when it has one, and finds nothing |
| PriceFetch.RunSourcesBarren | scrapper.py:371-386 | when no source finds anything, the sources make their requests one source after the other in the order of the source list, and the pool is unchanged |
| PriceFetch.StepOrder | scrapper.py:371-386 | on a web where no page yields a price, one term asks exactly Walmart, then Target, then Instacart, then Publix, each source's browser page before its HTTP fallback; without a driver exactly the HTTP pages of Walmart, Target and Publix |
| PriceFetch.SearchTerm | scrapper.py:371-386 | the inner loop over the four sources, in order, equals one `Step` |
| PriceFetch.RunTerms | scrapper.py:367-390 | the term loop with its early `break` as a function; `RunTermsPool`, `RunTermsTrace`, `RunTermsRequests`, `RunTermsIsPrefixRun` and `RunTermsStopsEarly` carry its properties |
| PriceFetch.TermsTried | scrapper.py:367-390 | at least one and at most all of the terms are searched |
| PriceFetch.RunTermsPool | scrapper.py:367-390 | the terms only append to the pool, and only plausible prices |
| PriceFetch.RunTermsTrace | scrapper.py:367-390 | the terms only append requests, at most eight per term |
| PriceFetch.RunTermsRequests | scrapper.py:366-386 | every request the terms make is for one of the terms, none goes to Google, and all are over HTTP without a driver |
| PriceFetch.TraceJoin | scrapper.py:366-386 | one term's requests followed by the later terms' requests are all for the terms and none to Google |
| PriceFetch.RunTermsIsPrefixRun | scrapper.py:367-390 | the early-stopping run is the full run over the terms it tried, in list order |
| PriceFetch.RunTermsStopsEarly | scrapper.py:388-390 | the run stops before its last term only with at least five prices, and every shorter run of the terms it tried had fewer than five |
| PriceFetch.GoogleRequest | scrapper.py:261-279 | the fallback asks Google Shopping, reads the page whatever its status, and uses the browser exactly when a driver exists |
| PriceFetch.DiscoverTrace | scrapper.py:392-395 | the requests of a run are those of the terms, then one Google request exactly when the terms found nothing |
| PriceFetch.GoogleOnlyAsLastResort | scrapper.py:392-395 | Google is asked at most once, last, with the original item name and city, and if and only if no retailer search found a price |
| PriceFetch.CollectedNoGoogle | scrapper.py:366-386 | the retailer searches never ask Google |
| PriceFetch.NoGoogleFromStart | scrapper.py:366-386 | a run of any terms from an empty pool asks no Google request |
| PriceFetch.FinalPool | scrapper.py:392-395 | the pool the answer is computed from, the collected prices or Google's in their place, is plausible |
| PriceFetch.Discover | scrapper.py:331-414 | `fetch_price_data` as a function; `DiscoverTrace`, `GoogleOnlyAsLastResort`, `AnswerFromFinalPool` and `AnswerPlausible` carry its properties, and `FetchPriceData` is proved equal to it |
| PriceFetch.Estimate | scrapper.py:397-414 | there is an estimate if and only if the pool is non-empty |
| PriceFetch.AnswerFromFinalPool | scrapper.py:397-414 | the answer is the estimate of the final pool, filtered with the original item name, and is missing if and only if that pool is empty |
| PriceFetch.AnswerPlausible | scrapper.py:397-412 | every answer lies between 51 and 19999 cents |
| PriceFetch.SingleDrinkOutlier | scrapper.py:296-410 | a single-drink pool of five in-band prices and one dearer one is answered with the mean of the middle three in-band prices |
| PriceFetch.Summarize | scrapper.py:397-414 | filtering, sorting, trimming and averaging in place equals `Estimate` |
| PriceFetch.FetchPriceData | scrapper.py:331-414 | the whole method, loops and break included, returns the answer and the requests of `Discover` |
| RegionModel.HubCoords | region_model.py:23-24 | a hub's coordinates are found if and only if some hub has the name, and they are that hub's |
| RegionModel.OtherCoords | region_model.py:26-34 | the same for the table of other known cities |
| RegionModel.Lookup | region_model.py:21-34 | a hub name gives that hub's coordinates; otherwise a known city's name gives its coordinates; otherwise the Florida centre |
| RegionModel.GetCoordinates | region_model.py:21-34 | `get_coordinates`: `Lookup` of the lower-cased, stripped name in the hub table, then the other cities; `HubCityMultiplier` and `UnknownKey` carry its properties |
| RegionModel.HubCoordsAt | region_model.py:23-24 | the lookup finds the first hub with the name |
| RegionModel.QueryPoint | region_model.py:45-51 | both coordinates are used directly and the city ignored; with neither coordinates nor city the call fails |
| RegionModel.HubAt | region_model.py:57-60 | the first hub at distance zero, if any, is found, and every hub before it is not at distance zero |
| RegionModel.TotalWeightPositive | region_model.py:61-63 | away from every hub the total weight is positive, so the division is defined |
| RegionModel.Interpolate | region_model.py:53-65 | the hub's index at distance zero from a hub, else the inverse-squared-distance weighted mean; `HubAt`, `TotalWeightPositive`, `MultiplierBounds` and `MultiplierAtHub` carry its properties |
| RegionModel.Multiplier | region_model.py:53-65 | `Interpolate` over the six hubs; `MultiplierBounds`, `MultiplierAtHub` and `DefaultMultiplier` carry its properties |
| RegionModel.InterpolateLoop | region_model.py:53-65 | the loop over the hubs, early return included, equals `Interpolate` |
| RegionModel.RegionalMultiplier | region_model.py:36-65 | the method fails exactly when no point can be formed, and otherwise returns the multiplier at the query point |
| RegionModel.MultiplierBounds | region_model.py:57-65 | every multiplier lies between the smallest hub index, 0.93, and the largest, 1.25 |
| RegionModel.HubsApart | region_model.py:12-17 | no two hubs share coordinates |
| RegionModel.MultiplierAtHub | region_model.py:57-60 | at a hub's coordinates the multiplier is that hub's index |
| RegionModel.HubCityMultiplier | region_model.py:21-60 | a hub's name in any letter case and with surrounding blanks gives that hub's index |
| RegionModel.UnknownKey | region_model.py:21-34 | a name in neither table maps to the Florida centre |
| RegionModel.DefaultMultiplier | region_model.py:13-19 | the Florida centre is Orlando's hub and carries its index, 1.02 |
| RegionModel.UnknownCityMultiplier | region_model.py:19-60 | an unknown city's multiplier is exactly 1.02 |
| RegionModel.CoordinatesOverrideCity | region_model.py:45-47 | given both coordinates, the multiplier is the one at those coordinates whatever the city |
| Geocoding.Clock.constructor | geocoding.py:20 | a new clock reads its start time and has an empty log |
| Geocoding.Clock.Sleep | geocoding.py:23 | a sleep advances the clock by at least what was asked and logs the sleep |
| Geocoding.Clock.Send | geocoding.py:49 | a request is logged at the current time, which does not change |
| Geocoding.NextStampSpaced | geocoding.py:20-24 | the new stamp is at least one interval after the previous one and not before the clock reading |
| Geocoding.StampsSpaced | geocoding.py:18-24 | over any run of limited requests, with a clock that never runs backwards, successive stamps are at least one interval apart |
| Geocoding.FreshCoherent | geocoding.py:15-24 | a clock with nothing logged meets the limiter's invariant, so a fresh clock and a fresh service can make the first lookup |
| Geocoding.GeocodingService.constructor | geocoding.py:15-16 | the limiter starts with last request time 0 and interval 1.0 |
| Geocoding.GeocodingService.RateLimit | geocoding.py:18-24 | when less than an interval has passed since the last stamp the limiter sleeps exactly the rest of the interval and logs that one sleep; otherwise it neither sleeps nor logs and the clock is unchanged; it then stamps the clock reading, which is at least one interval after the previous stamp |
| Geocoding.GeocodingService.ReverseGeocode | geocoding.py:26-95 | the reverse lookup rate-limits before it sends its one request, keeps the requests one interval apart, and returns the interpretation of the reply |
| Geocoding.GeocodingService.GeocodeCity | geocoding.py:97-140 | the forward lookup rate-limits before it sends its one search, keeps the requests one interval apart, and returns the interpretation of the reply |
| Geocoding.SentAfterPause | geocoding.py:39-49 | a request sent one interval after the previous ones keeps the logged requests spaced |
| Geocoding.ReverseResult | geocoding.py:38-95 | the result of `reverse_geocode` for the server's reply; `ReverseLocatedIff`, `ReverseRejectedIff`, `ReverseFailures` and `ReverseLocatedFields` carry its properties |
| Geocoding.Interpret | geocoding.py:55-88 | the address interpretation: the Florida check, then the located result; `ReverseRejectedIff` and `ReverseLocatedFields` carry its properties |
| Geocoding.CityOf | geocoding.py:58-64 | the `or` chain for the city; `CityFieldFirst`, `CityFromCounty` and `CityIsAField` carry its properties |
| Geocoding.InFlorida | geocoding.py:71 | the Florida check; `FloridaCodeSpellings` and `FloridaByName` carry its properties |
| Geocoding.CityLookupResult | geocoding.py:108-140 | the result of `geocode_city` for the server's reply; `CityLookupFoundIff` and `CityLookupFailures` carry its properties |
| Geocoding.StripCounty | geocoding.py:63-68 | removing " County" never lengthens the name |
| Geocoding.FirstField | geocoding.py:58-62 | the city is the first non-empty of the fields tried, or the fallback when all are empty |
| Geocoding.CityFieldFirst | geocoding.py:58-59 | a non-empty city field always wins |
| Geocoding.CityFromCounty | geocoding.py:63 | with city, town, village and municipality all empty, the county without " County" stands in |
| Geocoding.CityIsAField | geocoding.py:58-64 | the chosen city is always a non-empty one of the four fields or the stripped county |
| Geocoding.CountySuffixRemoved | geocoding.py:63-68 | a name followed by " County", with no " County" of its own, loses exactly the suffix |
| Geocoding.FloridaCodeSpellings | geocoding.py:71 | the state code passes if and only if it is one of "FL", "Fl", "fL", "fl" |
| Geocoding.FloridaByName | geocoding.py:71 | a state name containing "florida" in any letter case passes, whatever the code |
| Geocoding.ReverseLocatedIff | geocoding.py:51-88 | a reverse lookup succeeds, with `success` true, if and only if a 200 reply carries an address that passes the Florida check |
| Geocoding.ReverseRejectedIff | geocoding.py:71-76 | the result has no `success` key if and only if a 200 reply carries an address outside Florida, and it is then the not-in-Florida error echoing the state and state code |
| Geocoding.ReverseFailures | geocoding.py:51-95 | a non-200 reply or one without an address is "Geocoding failed"; request exceptions are network errors and others geocoding errors; `success` is false exactly in these cases |
| Geocoding.ReverseLocatedFields | geocoding.py:78-88 | a located result reports the chosen city, the stripped county, the coordinates asked for, the state fields and the whole address |
| Geocoding.CityLookupFoundIff | geocoding.py:125-135 | a forward lookup succeeds if and only if a 200 reply lists a place, and it reports the first place under the name asked for |
| Geocoding.CityLookupFailures | geocoding.py:125-140 | every exception, network ones included, is a geocoding error, and an empty or non-200 reply is "City not found" |

## Left out

- Browser and network I/O are not modelled; the reply to each request is a parameter (`Web`, `Reply`, `CityReply`). This covers Selenium start-up, driver page loads, the `requests` sessions and headers, User-Agent randomisation, time-outs, `close()` and the console output.
- URLs are not modelled. A request is its endpoint, channel and query. The URL encoding of the query (spaces as `+` or `%20`) is left out.
- The browser page is read once it has loaded. The fixed `time.sleep` calls of the scrapers, and the half-second pause `fetch_price_data` takes after a source that found prices (scrapper.py:384), are left out, because they carry no logic.
- BeautifulSoup's CSS selection, `get_text()` and `json.loads` are library calls. Their outputs are the inputs of `Page`.
- JSON-LD prices are modelled as cents (`Numeric`) or as not convertible (`NotNumeric`). Values with more than two decimals are not modelled.
- Floating point is not modelled: prices are exact cents and the mean is an exact real. `round(avg_price, 2)` is left out.
- The region model uses exact reals and squared distance. `math.sqrt` and float rounding in the weights are left out. The `dist == 0` test is the squared distance being zero.
- PriceExtraction.FindAll and Text.Strip are exact on ASCII text only: non-ASCII whitespace (such as U+0085 and U+00A0) and non-ASCII digits, which Python's `\s`, `\d` and `str.strip` also accept, are not modelled. Case mapping covers ASCII letters only; Unicode case folding is left out.
- Geocoding.Clock: the clock never runs backwards and a sleep lasts at least what was asked. A clock that jumps back is not modelled, and then the spacing would not hold.
- Non-object JSON bodies of reverse lookups and non-string address fields are not modelled. A reverse-lookup record is an optional address map and an optional display name.
- Malformed forward-lookup places, whose `float(result['lat'])` would raise, are not modelled. Every `Place` has coordinates.
- A Google Shopping query for a city is built by `GoogleQuery`; no property is proved about its text.
- `api.py` (Flask handlers and a thread-local scraper cache) and `main()` of `region_model.py` (an interactive console loop) are not part of this model.
- PriceFetch.StepOrder: the exact request list of one term is proved for a web on which no page yields a price. On other webs a source's fallback depends on what its browser page found; the sources still run in the order of `TermSources` by the definition of `RunSources`, which `SearchTerm` follows.
- Geocoding.Clock.Send: a request is logged at the instant of the limiter's stamp. The spacing proved is therefore that of the stamps; any delay between `_rate_limit` and `session.get` is not modelled.
