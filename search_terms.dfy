/** The search-term expansion of `fetch_price_data`: the item name first,
    then drink, chip and chocolate variations chosen by keyword; only the
    first three terms are ever searched. */
module SearchVariations {
  import opened Text

  /** Keywords that mark a cola search. */
  const ColaWords: seq<string> := ["coke", "coca cola", "cola"]
  /** Keywords that mark a multi-pack cola search. */
  const ColaPackWords: seq<string> := ["pack", "case", "12", "24"]
  /** How many terms are searched at most. */
  const MaxTermsTried: nat := 3

  /** The drink variations, in the order they are appended. */
  function DrinkTerms(lower: string): (r: seq<string>)
  {
    if ContainsAny(lower, ColaWords) && !Contains(lower, "coca cola") then
      (if !ContainsAny(lower, ColaPackWords)
       then ["coca cola 20 oz", "coca cola can", "coca cola bottle"] else [])
      + ["coca cola", "coca cola 2 liter"]
    else if Contains(lower, "coca cola") then
      ["coca cola 2 liter", "coca cola 20 oz", "coca cola can", "coke"]
    else if Contains(lower, "soda") || Contains(lower, "pop") then
      ["soda 2 liter"]
    else []
  }

  /** The chip variations; the " bag" variant keeps the caller's spelling. */
  function ChipTerms(itemName: string, lower: string): (r: seq<string>)
  {
    if Contains(lower, "chip") then
      (if !Contains(lower, "bag") && !Contains(lower, "family") then [itemName + " bag"] else [])
      + ["potato chips"]
    else []
  }

  /** The chocolate variations; the " bar" variant keeps the caller's spelling. */
  function ChocolateTerms(itemName: string, lower: string): (r: seq<string>)
  {
    if Contains(lower, "chocolate") then
      (if !Contains(lower, "bar") then [itemName + " bar"] else [])
      + ["chocolate bar"]
    else []
  }

  /** Every search term, the item name first. */
  function SearchTerms(itemName: string): (terms: seq<string>)
    ensures |terms| >= 1 && terms[0] == itemName
  {
    var lower := Lower(itemName);
    [itemName] + DrinkTerms(lower) + ChipTerms(itemName, lower) + ChocolateTerms(itemName, lower)
  }

  /** The terms actually searched: the first three. */
  function TriedTerms(itemName: string): (tried: seq<string>)
    ensures 1 <= |tried| <= MaxTermsTried
    ensures tried[0] == itemName
    ensures |tried| <= |SearchTerms(itemName)|
    ensures tried == SearchTerms(itemName)[..|tried|]
  {
    Take(SearchTerms(itemName), MaxTermsTried)
  }

  lemma CocaColaIsCola(lower: string)
    requires Contains(lower, "coca cola")
    ensures ContainsAny(lower, ColaWords)
  {
    assert ColaWords[1] == "coca cola";
  }

  /** A single-serving cola search tries the 20 oz and the can variants. */
  lemma SingleColaTerms(itemName: string)
    requires ContainsAny(Lower(itemName), ColaWords)
    requires !Contains(Lower(itemName), "coca cola")
    requires !ContainsAny(Lower(itemName), ColaPackWords)
    ensures TriedTerms(itemName) == [itemName, "coca cola 20 oz", "coca cola can"]
  {
  }

  /** A multi-pack cola search tries the generic and the 2 liter variants. */
  lemma PackColaTerms(itemName: string)
    requires ContainsAny(Lower(itemName), ColaWords)
    requires !Contains(Lower(itemName), "coca cola")
    requires ContainsAny(Lower(itemName), ColaPackWords)
    ensures TriedTerms(itemName) == [itemName, "coca cola", "coca cola 2 liter"]
  {
  }

  /** A search already naming "coca cola" tries the 2 liter and 20 oz variants. */
  lemma CocaColaTerms(itemName: string)
    requires Contains(Lower(itemName), "coca cola")
    ensures TriedTerms(itemName) == [itemName, "coca cola 2 liter", "coca cola 20 oz"]
  {
    CocaColaIsCola(Lower(itemName));
  }

  /** The third single-cola variant, "coca cola bottle", is expanded but
      never searched: the cut at three terms drops it. */
  lemma BottleNeverTried(itemName: string)
    requires ContainsAny(Lower(itemName), ColaWords)
    requires !Contains(Lower(itemName), "coca cola")
    requires !ContainsAny(Lower(itemName), ColaPackWords)
    ensures SearchTerms(itemName)[3] == "coca cola bottle"
    ensures "coca cola bottle" !in TriedTerms(itemName)[1..]
  {
    SingleColaTerms(itemName);
    assert "coca cola bottle"[10] == 'b' && "coca cola 20 oz"[10] == '2' && "coca cola can"[10] == 'c';
  }

  /** No chip variation spells "soda 2 liter". */
  lemma ChipTermsNotSoda(itemName: string, lower: string)
    ensures "soda 2 liter" !in ChipTerms(itemName, lower)
  {
    var bag := itemName + " bag";
    assert bag[|bag| - 1] == 'g' && "soda 2 liter"[11] == 'r';
    assert "potato chips"[0] == 'p';
  }

  /** No chocolate variation spells "soda 2 liter". */
  lemma ChocolateTermsNotSoda(itemName: string, lower: string)
    ensures "soda 2 liter" !in ChocolateTerms(itemName, lower)
  {
    var bar := itemName + " bar";
    assert bar[|bar| - 2] == 'a' && "soda 2 liter"[10] == 'e';
    assert "chocolate bar"[0] == 'c';
  }

  /** No chip or chocolate variation spells "soda 2 liter". */
  lemma SnackTermsNotSoda(itemName: string, lower: string)
    ensures "soda 2 liter" !in ChipTerms(itemName, lower) + ChocolateTerms(itemName, lower)
  {
    ChipTermsNotSoda(itemName, lower);
    ChocolateTermsNotSoda(itemName, lower);
  }

  /** The drink variations hold "soda 2 liter" exactly when no cola
      keyword occurs and "soda" or "pop" does. */
  lemma DrinkTermsSoda(lower: string)
    ensures "soda 2 liter" in DrinkTerms(lower) <==>
      !ContainsAny(lower, ColaWords) && (Contains(lower, "soda") || Contains(lower, "pop"))
  {
    if Contains(lower, "coca cola") {
      CocaColaIsCola(lower);
    }
    if ContainsAny(lower, ColaWords) {
      assert "soda 2 liter"[0] == 's';
      forall t | t in DrinkTerms(lower)
        ensures t != "soda 2 liter"
      {
        assert t[0] == 'c';
      }
    }
  }

  /** "soda 2 liter" is appended exactly when no cola keyword occurs and
      "soda" or "pop" does. */
  lemma SodaTerm(itemName: string)
    ensures "soda 2 liter" in SearchTerms(itemName)[1..] <==>
      !ContainsAny(Lower(itemName), ColaWords) &&
      (Contains(Lower(itemName), "soda") || Contains(Lower(itemName), "pop"))
  {
    var lower := Lower(itemName);
    assert SearchTerms(itemName)[1..] == DrinkTerms(lower) + (ChipTerms(itemName, lower) + ChocolateTerms(itemName, lower));
    SnackTermsNotSoda(itemName, lower);
    DrinkTermsSoda(lower);
  }

  /** A chip search with no drink keyword tries the " bag" variant of the
      caller's own spelling, then "potato chips". */
  lemma ChipBagTerms(itemName: string)
    requires Contains(Lower(itemName), "chip")
    requires !Contains(Lower(itemName), "bag") && !Contains(Lower(itemName), "family")
    requires !ContainsAny(Lower(itemName), ColaWords)
    requires !Contains(Lower(itemName), "soda") && !Contains(Lower(itemName), "pop")
    ensures TriedTerms(itemName) == [itemName, itemName + " bag", "potato chips"]
  {
    var lower := Lower(itemName);
    if Contains(lower, "coca cola") {
      CocaColaIsCola(lower);
    }
  }

  /** A chocolate search without "bar" expands to the caller's own spelling
      plus " bar", followed by "chocolate bar", at the end of the list. */
  lemma ChocolateBarTerms(itemName: string)
    requires Contains(Lower(itemName), "chocolate") && !Contains(Lower(itemName), "bar")
    ensures var terms := SearchTerms(itemName);
      |terms| >= 3 && terms[|terms| - 2] == itemName + " bar" && terms[|terms| - 1] == "chocolate bar"
  {
    var lower := Lower(itemName);
    var front := [itemName] + DrinkTerms(lower) + ChipTerms(itemName, lower);
    assert SearchTerms(itemName) == front + [itemName + " bar", "chocolate bar"];
  }

  /** "cola" is a substring of "chocolate", so a chocolate search is a
      cola search. */
  lemma ChocolateIsCola(lower: string)
    requires Contains(lower, "chocolate")
    ensures ContainsAny(lower, ColaWords)
  {
    ContainsTransitive(lower, "chocolate", "cola", 3);
    assert ColaWords[2] == "cola";
  }

  /** A cola search tries one of the three cola variant lists after the name. */
  lemma ColaSearchTerms(itemName: string)
    requires ContainsAny(Lower(itemName), ColaWords)
    ensures TriedTerms(itemName)[1..] in
      {["coca cola 2 liter", "coca cola 20 oz"], ["coca cola", "coca cola 2 liter"],
       ["coca cola 20 oz", "coca cola can"]}
  {
    var lower := Lower(itemName);
    if Contains(lower, "coca cola") {
      CocaColaTerms(itemName);
    } else if ContainsAny(lower, ColaPackWords) {
      PackColaTerms(itemName);
    } else {
      SingleColaTerms(itemName);
    }
  }

  /** None of the cola variants is a chocolate variant. */
  lemma ColaVariantsOnly(itemName: string, tail: seq<string>)
    requires tail in
      {["coca cola 2 liter", "coca cola 20 oz"], ["coca cola", "coca cola 2 liter"],
       ["coca cola 20 oz", "coca cola can"]}
    ensures forall t :: t in tail ==> StartsWith(t, "coca cola")
    ensures "chocolate bar" !in tail
    ensures itemName + " bar" !in tail
  {
    var bar := itemName + " bar";
    assert bar[|bar| - 2] == 'a' && bar[|bar| - 1] == 'r';
    assert "coca cola 2 liter"[15] == 'e' && "coca cola 20 oz"[14] == 'z';
    assert "coca cola can"[12] == 'n' && "coca cola"[8] == 'a';
    assert "chocolate bar"[1] == 'h' && "coca cola"[1] == 'o';
  }

  /** Since a chocolate search takes the cola branch, every variation tried
      after the name itself is a "coca cola" one, and neither chocolate
      variation is ever searched. */
  lemma ChocolateSearchesCola(itemName: string)
    requires Contains(Lower(itemName), "chocolate")
    ensures ContainsAny(Lower(itemName), ColaWords)
    ensures forall t :: t in TriedTerms(itemName)[1..] ==> StartsWith(t, "coca cola")
    ensures "chocolate bar" !in TriedTerms(itemName)[1..]
    ensures itemName + " bar" !in TriedTerms(itemName)[1..]
  {
    ChocolateIsCola(Lower(itemName));
    ColaSearchTerms(itemName);
    ColaVariantsOnly(itemName, TriedTerms(itemName)[1..]);
  }
}
