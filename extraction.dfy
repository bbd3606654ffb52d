/** Price extraction from one retrieved page (`_extract_prices_from_soup`).
    The page is given in the form the HTML library would hand it over: for
    each CSS selector the texts of the matching elements in document order,
    the parsed JSON-LD script bodies, and the page's whole text. Prices are
    integer cents. */
module PriceExtraction {
  import opened Text

  /** The plausibility bound `0.50 < price < 200`, in cents. */
  predicate Plausible(c: int) {
    50 < c < 20000
  }

  predicate IsDigit(c: char) {
    '0' <= c <= '9'
  }

  /** Length of the longest prefix of `s` made of digits (what a greedy `\d+` or `\d*` takes). */
  function DigitRun(s: string): (n: nat)
    ensures n <= |s|
    ensures forall i :: 0 <= i < n ==> IsDigit(s[i])
    ensures n < |s| ==> !IsDigit(s[n])
  {
    if s != [] && IsDigit(s[0]) then 1 + DigitRun(s[1..]) else 0
  }

  /** Length of the longest prefix of `s` made of whitespace (a greedy `\s*`). */
  function SpaceRun(s: string): (n: nat)
    ensures n <= |s|
    ensures forall i :: 0 <= i < n ==> IsSpace(s[i])
    ensures n < |s| ==> !IsSpace(s[n])
  {
    if s != [] && IsSpace(s[0]) then 1 + SpaceRun(s[1..]) else 0
  }

  /** The digit run is determined by where the first non-digit stands. */
  lemma {:induction false} DigitRunIs(s: string, n: nat)
    requires n <= |s|
    requires forall i :: 0 <= i < n ==> IsDigit(s[i])
    requires n < |s| ==> !IsDigit(s[n])
    ensures DigitRun(s) == n
  {
    if n > 0 {
      DigitRunIs(s[1..], n - 1);
    }
  }

  /** Decimal value of a string of digits. */
  function DigitValue(c: char): (v: nat)
    requires IsDigit(c)
    ensures v <= 9
  {
    c as int - '0' as int
  }

  function DigitsValue(s: string): (v: nat)
    requires forall i :: 0 <= i < |s| ==> IsDigit(s[i])
    ensures |s| <= 1 ==> v <= 9
    ensures |s| <= 2 ==> v <= 99
  {
    if s == [] then 0 else DigitsValue(s[..|s| - 1]) * 10 + DigitValue(s[|s| - 1])
  }

  /** The two regular expressions of the extractor:
      Loose is `\$?\s*(\d+\.?\d{0,2})` (selector layer), Strict is `\$\s*(\d+\.\d{2})` (free-text layer). */
  datatype Pattern = Loose | Strict

  /** A match found by `findall`: the captured group and how many characters the whole match spans. */
  datatype Match = Match(group: string, length: nat)

  /** Length of the numeral `\d+\.?\d{0,2}` at the start of `t` (0: none there). */
  function LooseNumeral(t: string): (n: nat)
    ensures n <= |t|
  {
    var d := DigitRun(t);
    if d == 0 then 0
    else
      var dot := if d < |t| && t[d] == '.' then 1 else 0;
      var run := DigitRun(t[d + dot..]);
      d + dot + (if run < 2 then run else 2)
  }

  /** Length of the numeral `\d+\.\d{2}` at the start of `t` (0: none there). */
  function StrictNumeral(t: string): (n: nat)
    ensures n <= |t|
  {
    var d := DigitRun(t);
    if d > 0 && d + 3 <= |t| && t[d] == '.' && IsDigit(t[d + 1]) && IsDigit(t[d + 2]) then d + 3 else 0
  }

  /** The match of pattern `p` starting at the first character of `s`, if there is one.
      Both patterns are deterministic: `\s*` and `\d+` are followed by characters they
      cannot take, so the greedy choice is the only one that can succeed; in particular a
      `$` that is not followed by a numeral does not start a match of the loose pattern. */
  function MatchAt(p: Pattern, s: string): (m: Option<Match>)
    ensures m.Some? ==> 0 < m.value.length <= |s|
  {
    match p
    case Loose =>
      var a := if s != [] && s[0] == '$' then 1 else 0;
      var b := a + SpaceRun(s[a..]);
      var n := LooseNumeral(s[b..]);
      if n == 0 then None else Some(Match(s[b..][..n], b + n))
    case Strict =>
      if s == [] || s[0] != '$' then None
      else
        var b := 1 + SpaceRun(s[1..]);
        var n := StrictNumeral(s[b..]);
        if n == 0 then None else Some(Match(s[b..][..n], b + n))
  }

  /** `re.findall(p, s)`: scanning left to right, each match's group is reported and the
      scan resumes after the match; where nothing matches the scan moves one character on. */
  function FindAll(p: Pattern, s: string): (groups: seq<string>)
    decreases |s|
  {
    if s == [] then []
    else match MatchAt(p, s)
      case Some(m) => [m.group] + FindAll(p, s[m.length..])
      case None => FindAll(p, s[1..])
  }

  /** Cents of a fraction of at most two digits: "" is 0, "5" is 50, "05" is 5. */
  function FractionCents(f: string): (c: nat)
    requires |f| <= 2 && forall i :: 0 <= i < |f| ==> IsDigit(f[i])
    ensures c < 100
  {
    if |f| == 1 then DigitsValue(f) * 10 else DigitsValue(f)
  }

  /** `float(g)` in cents, for numerals `digits[.digits]` with at most two decimals; every
      other string is reported as not convertible (CapturesConvert shows none of them is
      ever captured). */
  function ParseCents(g: string): (c: Option<int>)
    ensures c.Some? ==> c.value >= 0
  {
    var d := DigitRun(g);
    if d == 0 then None
    else if d == |g| then Some(DigitsValue(g) * 100)
    else if g[d] != '.' || |g| - (d + 1) > 2 || DigitRun(g[d + 1..]) != |g| - (d + 1) then None
    else Some(DigitsValue(g[..d]) * 100 + FractionCents(g[d + 1..]))
  }

  /** Every numeral the loose pattern captures converts. */
  lemma LooseNumeralConverts(t: string)
    requires LooseNumeral(t) > 0
    ensures ParseCents(t[..LooseNumeral(t)]).Some?
  {
    var n := LooseNumeral(t);
    var g := t[..n];
    var d := DigitRun(t);
    var dot := if d < |t| && t[d] == '.' then 1 else 0;
    var run := DigitRun(t[d + dot..]);
    var f := if run < 2 then run else 2;
    assert forall i :: 0 <= i < d ==> IsDigit(g[i]);
    if dot == 0 {
      assert f == 0 by {
        if d < |t| {
          assert t[d + dot..][0] == t[d];
        }
      }
      DigitRunIs(g, d);
    } else {
      DigitRunIs(g, d);
      var frac := g[d + 1..];
      assert forall i :: 0 <= i < f ==> IsDigit(frac[i]) by {
        forall i | 0 <= i < f ensures IsDigit(frac[i]) {
          assert frac[i] == t[d + 1..][i];
        }
      }
      DigitRunIs(frac, f);
    }
  }

  /** Every numeral the strict pattern captures converts. */
  lemma StrictNumeralConverts(t: string)
    requires StrictNumeral(t) > 0
    ensures ParseCents(t[..StrictNumeral(t)]).Some?
  {
    var n := StrictNumeral(t);
    var g := t[..n];
    var d := DigitRun(t);
    assert forall i :: 0 <= i < d ==> IsDigit(g[i]);
    DigitRunIs(g, d);
    var frac := g[d + 1..];
    assert frac == [t[d + 1], t[d + 2]];
    DigitRunIs(frac, 2);
  }

  /** Every group either pattern captures converts: `float(price_str)` never raises here. */
  lemma MatchConverts(p: Pattern, s: string)
    requires MatchAt(p, s).Some?
    ensures ParseCents(MatchAt(p, s).value.group).Some?
  {
    if p == Loose {
      LooseMatchConverts(s);
    } else {
      StrictMatchConverts(s);
    }
  }

  lemma LooseMatchConverts(s: string)
    requires MatchAt(Loose, s).Some?
    ensures ParseCents(MatchAt(Loose, s).value.group).Some?
  {
    var a := if s != [] && s[0] == '$' then 1 else 0;
    var t := s[a + SpaceRun(s[a..])..];
    assert MatchAt(Loose, s).value.group == t[..LooseNumeral(t)];
    LooseNumeralConverts(t);
  }

  lemma StrictMatchConverts(s: string)
    requires MatchAt(Strict, s).Some?
    ensures ParseCents(MatchAt(Strict, s).value.group).Some?
  {
    var t := s[1 + SpaceRun(s[1..])..];
    assert MatchAt(Strict, s).value.group == t[..StrictNumeral(t)];
    StrictNumeralConverts(t);
  }

  lemma {:induction false} CapturesConvert(p: Pattern, s: string)
    ensures forall g :: g in FindAll(p, s) ==> ParseCents(g).Some?
    decreases |s|
  {
    if s != [] {
      match MatchAt(p, s)
      case Some(m) =>
        MatchConverts(p, s);
        CapturesConvert(p, s[m.length..]);
      case None =>
        CapturesConvert(p, s[1..]);
    }
  }

  /** What the conversion loop adds for one captured string: its value when
      it converts and is plausible, nothing otherwise. */
  function Admit(g: string): (r: seq<int>)
    ensures |r| <= 1
    ensures forall c :: c in r ==> Plausible(c)
  {
    match ParseCents(g)
    case None => []
    case Some(c) => if Plausible(c) then [c] else []
  }

  /** `Admit` over a list of captures, in order. */
  function Admitted(groups: seq<string>): (r: seq<int>)
    ensures |r| <= |groups|
    ensures forall c :: c in r ==> Plausible(c)
  {
    if groups == [] then [] else Admitted(groups[..|groups| - 1]) + Admit(groups[|groups| - 1])
  }

  lemma AdmittedStep(groups: seq<string>, m: nat)
    requires m < |groups|
    ensures Admitted(groups[..m + 1]) == Admitted(groups[..m]) + Admit(groups[m])
  {
    assert groups[..m + 1][..m] == groups[..m];
  }

  /** For captures, whose conversion never fails, admission keeps exactly the plausible
      converted values. */
  lemma {:induction false} AdmittedExactly(groups: seq<string>, x: int)
    requires forall g :: g in groups ==> ParseCents(g).Some?
    ensures x in Admitted(groups) <==>
      exists i :: 0 <= i < |groups| && ParseCents(groups[i]) == Some(x) && Plausible(x)
  {
    if groups != [] {
      var n := |groups| - 1;
      var front := groups[..n];
      assert forall g :: g in front ==> g in groups;
      AdmittedExactly(front, x);
      AdmitExactly(groups[n], x);
      assert Admitted(groups) == Admitted(front) + Admit(groups[n]);
      assert x in Admitted(groups) ==>
        exists i :: 0 <= i < |groups| && ParseCents(groups[i]) == Some(x) && Plausible(x)
      by {
        if x in Admitted(front) {
          var i :| 0 <= i < |front| && ParseCents(front[i]) == Some(x) && Plausible(x);
          assert groups[i] == front[i];
        } else if x in Admit(groups[n]) {
          assert ParseCents(groups[n]) == Some(x) && Plausible(x);
        }
      }
      assert (exists i :: 0 <= i < |groups| && ParseCents(groups[i]) == Some(x) && Plausible(x)) ==>
        x in Admitted(groups)
      by {
        if exists i :: 0 <= i < |groups| && ParseCents(groups[i]) == Some(x) && Plausible(x) {
          var i :| 0 <= i < |groups| && ParseCents(groups[i]) == Some(x) && Plausible(x);
          if i < n {
            assert front[i] == groups[i];
            assert x in Admitted(front);
          } else {
            assert i == n;
            assert ParseCents(groups[n]) == Some(x);
          }
        }
      }
    }
  }

  lemma AdmitExactly(g: string, x: int)
    requires ParseCents(g).Some?
    ensures x in Admit(g) <==> ParseCents(g) == Some(x) && Plausible(x)
  {
  }

  datatype PriceField = Missing | Numeric(cents: int) | NotNumeric
  datatype Offers = NoOffers | OffersNotObject | OffersObject(price: PriceField)
  /** One `<script type="application/ld+json">` after `json.loads`: not JSON at all, a JSON
      value other than an object, or an object with its `offers` and `price` members. */
  datatype JsonLd = Unparsable | NotObject | Object(offers: Offers, price: PriceField)

  datatype Page = Page(hits: seq<seq<string>>, scripts: seq<JsonLd>, text: string)

  /** The selectors tried, in this order; `Page.hits[k]` holds the texts of the elements the
      k-th one selects. */
  const PriceSelectors: seq<string> := [
    "[data-automation-id=\"product-price\"]", ".price-current", "[itemprop=\"price\"]",
    "[data-testid=\"price\"]", ".price", "[class*=\"price\"]", "[class*=\"Price\"]",
    "span[class*=\"currency\"]", "[data-price]"]

  const ElementsPerSelector: nat := 15
  const TextMatchLimit: nat := 20

  function SelectorHits(page: Page, k: nat): seq<string> {
    if k < |page.hits| then page.hits[k] else []
  }

  /** Prices read from one element's text, commas removed first. */
  function ElementPrices(text: string): seq<int> {
    Admitted(FindAll(Loose, RemoveAll(text, ",")))
  }

  function ElementsPrices(elements: seq<string>): (r: seq<int>)
    ensures forall c :: c in r ==> Plausible(c)
  {
    if elements == [] then []
    else ElementsPrices(elements[..|elements| - 1]) + ElementPrices(elements[|elements| - 1])
  }

  /** The elements the first `k` selectors contribute, each cut to its first 15. */
  function Heads(page: Page, k: nat): (r: seq<seq<string>>)
    ensures |r| == k
  {
    if k == 0 then [] else Heads(page, k - 1) + [Take(SelectorHits(page, k - 1), ElementsPerSelector)]
  }

  /** The prices read from a list of element lists, list by list. */
  function Layers(heads: seq<seq<string>>): (r: seq<int>)
    ensures forall c :: c in r ==> Plausible(c)
  {
    if heads == [] then [] else Layers(heads[..|heads| - 1]) + ElementsPrices(heads[|heads| - 1])
  }

  /** The selector layer over the first `k` selectors, each limited to its first 15 elements. */
  function SelectorLayer(page: Page, k: nat): (r: seq<int>)
    ensures forall c :: c in r ==> Plausible(c)
  {
    Layers(Heads(page, k))
  }

  lemma SelectorLayerStep(page: Page, k: nat)
    ensures SelectorLayer(page, k + 1)
      == SelectorLayer(page, k) + ElementsPrices(Take(SelectorHits(page, k), ElementsPerSelector))
  {
    assert Heads(page, k + 1)[..k] == Heads(page, k);
  }

  function FieldPrice(f: PriceField): seq<int> {
    match f
    case Numeric(c) => if Plausible(c) then [c] else []
    case _ => []
  }

  /** An `offers` object decides alone; otherwise the record's own `price` is read. */
  function ScriptPrice(j: JsonLd): seq<int> {
    match j
    case Object(offers, price) =>
      (match offers
       case OffersObject(offered) => FieldPrice(offered)
       case _ => FieldPrice(price))
    case _ => []
  }

  function JsonLayer(scripts: seq<JsonLd>): seq<int> {
    if scripts == [] then [] else JsonLayer(scripts[..|scripts| - 1]) + ScriptPrice(scripts[|scripts| - 1])
  }

  /** The free-text layer: the first 20 strict matches in the page text. */
  function TextLayer(text: string): seq<int> {
    Admitted(Take(FindAll(Strict, text), TextMatchLimit))
  }

  /** Everything the extractor returns for a page, in the order the layers run. */
  function Extract(page: Page): seq<int> {
    SelectorLayer(page, |PriceSelectors|) + JsonLayer(page.scripts) + TextLayer(page.text)
  }

  /** The inner loop shared by the selector and free-text layers: convert each captured
      string, keep it if plausible. */
  method AdmitEach(prices: seq<int>, matches: seq<string>) returns (out: seq<int>)
    ensures out == prices + Admitted(matches)
  {
    out := prices;
    for m := 0 to |matches|
      invariant out == prices + Admitted(matches[..m])
    {
      out := AdmitOne(out, matches[m]);
      AdmittedStep(matches, m);
    }
    assert matches[..|matches|] == matches;
  }

  /** The body of that loop for one captured string: convert it, keep it if plausible. */
  method AdmitOne(prices: seq<int>, g: string) returns (out: seq<int>)
    ensures out == prices + Admit(g)
  {
    out := prices;
    match ParseCents(g) {
      case None =>
      case Some(c) =>
        if Plausible(c) {
          out := out + [c];
        }
    }
  }

  /** The JSON-LD loop: one price at most per script, from `offers.price` when `offers` is an
      object and from the record's own `price` otherwise. */
  method ReadJsonLd(prices: seq<int>, scripts: seq<JsonLd>) returns (out: seq<int>)
    ensures out == prices + JsonLayer(scripts)
  {
    out := prices;
    for j := 0 to |scripts|
      invariant out == prices + JsonLayer(scripts[..j])
    {
      JsonLayerStep(scripts, j);
      match scripts[j] {
        case Object(offers, price) =>
          match offers {
            case OffersObject(Numeric(c)) =>
              if Plausible(c) {
                out := out + [c];
              }
            case OffersObject(_) =>
            case _ =>
              match price {
                case Numeric(c) =>
                  if Plausible(c) {
                    out := out + [c];
                  }
                case _ =>
              }
          }
        case _ =>
      }
    }
    assert scripts[..|scripts|] == scripts;
  }

  lemma JsonLayerStep(scripts: seq<JsonLd>, j: nat)
    requires j < |scripts|
    ensures JsonLayer(scripts[..j + 1]) == JsonLayer(scripts[..j]) + ScriptPrice(scripts[j])
  {
    assert scripts[..j + 1][..j] == scripts[..j];
  }

  /** One element: `re.findall` over its text with commas removed, then the conversion loop. */
  method ReadElement(prices: seq<int>, text: string) returns (out: seq<int>)
    ensures out == prices + ElementPrices(text)
  {
    out := AdmitEach(prices, FindAll(Loose, RemoveAll(text, ",")));
  }

  lemma ConcatAssoc(a: seq<int>, b: seq<int>, c: seq<int>)
    ensures (a + b) + c == a + (b + c)
  {
  }

  lemma ElementsPricesStep(elements: seq<string>, e: nat)
    requires e < |elements|
    ensures ElementsPrices(elements[..e + 1]) == ElementsPrices(elements[..e]) + ElementPrices(elements[e])
  {
    assert elements[..e + 1][..e] == elements[..e];
  }

  /** The loop over the (at most 15) elements one selector matched. */
  method ReadElements(prices: seq<int>, elements: seq<string>) returns (out: seq<int>)
    ensures out == prices + ElementsPrices(elements)
  {
    out := prices;
    for e := 0 to |elements|
      invariant out == prices + ElementsPrices(elements[..e])
    {
      out := ReadElement(out, elements[e]);
      ElementsPricesStep(elements, e);
      ConcatAssoc(prices, ElementsPrices(elements[..e]), ElementPrices(elements[e]));
    }
    assert elements[..|elements|] == elements;
  }

  /** `_extract_prices_from_soup`. */
  method ExtractPrices(page: Page) returns (prices: seq<int>)
    ensures prices == SelectorLayer(page, |PriceSelectors|) + JsonLayer(page.scripts) + TextLayer(page.text)
  {
    prices := [];
    for k := 0 to |PriceSelectors|
      invariant prices == SelectorLayer(page, k)
    {
      prices := ReadElements(prices, Take(SelectorHits(page, k), ElementsPerSelector));
      SelectorLayerStep(page, k);
    }
    prices := ReadJsonLd(prices, page.scripts);
    prices := AdmitEach(prices, Take(FindAll(Strict, page.text), TextMatchLimit));
  }

  lemma {:induction false} JsonLayerPlausible(scripts: seq<JsonLd>)
    ensures forall c :: c in JsonLayer(scripts) ==> Plausible(c)
  {
    if scripts != [] {
      JsonLayerPlausible(scripts[..|scripts| - 1]);
    }
  }

  /** Every price any layer admits satisfies `0.50 < p < 200`. */
  lemma ExtractPlausible(page: Page)
    ensures forall c :: c in Extract(page) ==> Plausible(c)
  {
    JsonLayerPlausible(page.scripts);
  }

  /** The free-text layer contributes at most 20 prices. */
  lemma TextLayerAtMostTwenty(text: string)
    ensures |TextLayer(text)| <= TextMatchLimit
  {
  }

  /** Elements after the 15th of any selector never influence the selector layer. */
  lemma SelectorLayerReadsFifteen(page: Page, other: Page, k: nat)
    requires forall i :: 0 <= i < k ==>
      Take(SelectorHits(page, i), ElementsPerSelector) == Take(SelectorHits(other, i), ElementsPerSelector)
    ensures SelectorLayer(page, k) == SelectorLayer(other, k)
  {
    HeadsAgree(page, other, k);
  }

  lemma {:induction false} HeadsAgree(page: Page, other: Page, k: nat)
    requires forall i :: 0 <= i < k ==>
      Take(SelectorHits(page, i), ElementsPerSelector) == Take(SelectorHits(other, i), ElementsPerSelector)
    ensures Heads(page, k) == Heads(other, k)
  {
    if k > 0 {
      HeadsAgree(page, other, k - 1);
    }
  }

  /** A record whose `offers` is an object is priced by `offers.price` alone, even when that
      is missing and the record has a `price` of its own. */
  lemma OffersObjectShadowsPrice(offered: PriceField, own: PriceField)
    ensures ScriptPrice(Object(OffersObject(offered), own)) == FieldPrice(offered)
    ensures ScriptPrice(Object(OffersObject(Missing), own)) == []
  {
  }
}
