/** `_filter_prices_by_product_type`: a keyword on the item name picks a
    price band in cents; the prices inside the band are kept when there
    are any, otherwise every price is kept. */
module ProductFilter {
  import opened Text

  const BeverageWords: seq<string> := ["coke", "coca cola", "cola", "soda", "drink", "beverage"]
  const BeverageBulkWords: seq<string> := ["pack", "case", "12", "24", "family", "bulk"]
  const ConfectionMultiWords: seq<string> := ["pack", "case", "multi"]

  /** The product kinds the filter tells apart, in the order it tests them. */
  datatype Category =
    | BeverageSingle | BeverageBulk
    | SnackFamily | SnackRegular
    | ConfectionSingle | ConfectionMulti
    | Generic

  /** An inclusive price band in cents. */
  datatype Band = Band(lo: int, hi: int)

  /** The prices inside the band, in their order. */
  function Within(prices: seq<int>, b: Band): (r: seq<int>)
    ensures |r| <= |prices|
  {
    if prices == [] then []
    else (if b.lo <= prices[0] <= b.hi then [prices[0]] else []) + Within(prices[1..], b)
  }

  lemma {:induction false} WithinConcat(a: seq<int>, c: seq<int>, b: Band)
    ensures Within(a + c, b) == Within(a, b) + Within(c, b)
  {
    if a == [] {
      assert a + c == c;
    } else {
      var head := if b.lo <= a[0] <= b.hi then [a[0]] else [];
      assert Within(a + c, b) == head + Within(a[1..] + c, b) by {
        assert (a + c)[0] == a[0] && (a + c)[1..] == a[1..] + c;
      }
      WithinConcat(a[1..], c, b);
      assert head + (Within(a[1..], b) + Within(c, b)) == (head + Within(a[1..], b)) + Within(c, b);
    }
  }

  lemma {:induction false} WithinAll(a: seq<int>, b: Band)
    requires forall i :: 0 <= i < |a| ==> b.lo <= a[i] <= b.hi
    ensures Within(a, b) == a
  {
    if a != [] {
      WithinAll(a[1..], b);
    }
  }

  /** Within keeps exactly the in-band prices, each as often as it occurs. */
  lemma {:induction false} WithinExactly(prices: seq<int>, b: Band)
    ensures forall i :: 0 <= i < |Within(prices, b)| ==> b.lo <= Within(prices, b)[i] <= b.hi
    ensures forall x :: x in Within(prices, b) <==> x in prices && b.lo <= x <= b.hi
    ensures forall x :: multiset(Within(prices, b))[x] == if b.lo <= x <= b.hi then multiset(prices)[x] else 0
  {
    if prices != [] {
      WithinExactly(prices[1..], b);
      assert prices == [prices[0]] + prices[1..];
    }
  }

  /** `prices` with the in-band prices kept, or unchanged when none is in band. */
  function Prefer(prices: seq<int>, b: Band): (r: seq<int>)
    ensures r == [] <==> prices == []
    ensures |r| <= |prices|
    ensures multiset(r) <= multiset(prices)
  {
    WithinExactly(prices, b);
    var inBand := Within(prices, b);
    if inBand != [] then inBand else prices
  }

  /** The filter as the source writes it: the branches in their order, and
      the final fallback to the input when the result is empty. */
  function FilterByProductType(prices: seq<int>, itemName: string): (r: seq<int>)
    ensures prices != [] ==> r != []
    ensures |r| <= |prices|
    ensures multiset(r) <= multiset(prices)
  {
    var lower := Lower(itemName);
    var filtered :=
      if ContainsAny(lower, BeverageWords) then
        (if !ContainsAny(lower, BeverageBulkWords) then Prefer(prices, Band(50, 500)) else prices)
      else if Contains(lower, "chip") then
        (if Contains(lower, "family") || Contains(lower, "large")
         then Prefer(prices, Band(250, 1000)) else Prefer(prices, Band(100, 700)))
      else if Contains(lower, "chocolate") then
        (if !ContainsAny(lower, ConfectionMultiWords) then Prefer(prices, Band(50, 500)) else prices)
      else prices;
    if filtered != [] then filtered else prices
  }

  /** The category of an item name, by the same keyword tests. */
  function Classify(itemName: string): (c: Category)
  {
    var lower := Lower(itemName);
    if ContainsAny(lower, BeverageWords) then
      (if ContainsAny(lower, BeverageBulkWords) then BeverageBulk else BeverageSingle)
    else if Contains(lower, "chip") then
      (if Contains(lower, "family") || Contains(lower, "large") then SnackFamily else SnackRegular)
    else if Contains(lower, "chocolate") then
      (if ContainsAny(lower, ConfectionMultiWords) then ConfectionMulti else ConfectionSingle)
    else Generic
  }

  /** The band each category prefers; bulk packs and unknown items have none. */
  function Envelope(c: Category): (b: Option<Band>)
    ensures b.Some? ==> 0 < b.value.lo <= b.value.hi
    ensures b.None? <==> c in {BeverageBulk, ConfectionMulti, Generic}
  {
    match c
    case BeverageSingle => Some(Band(50, 500))
    case SnackFamily => Some(Band(250, 1000))
    case SnackRegular => Some(Band(100, 700))
    case ConfectionSingle => Some(Band(50, 500))
    case _ => None
  }

  /** The filter keeps the whole input, or exactly the input's prices within
      the band of the item's category, in their order and with their
      multiplicities, when there is at least one. */
  lemma FilterFollowsEnvelope(prices: seq<int>, itemName: string)
    ensures FilterByProductType(prices, itemName) ==
      match Envelope(Classify(itemName))
      case None => prices
      case Some(b) => Prefer(prices, b)
  {
    var lower := Lower(itemName);
    var beverage := ContainsAny(lower, BeverageWords);
    var bulk := ContainsAny(lower, BeverageBulkWords);
    var chip := Contains(lower, "chip");
    var family := Contains(lower, "family") || Contains(lower, "large");
    var chocolate := Contains(lower, "chocolate");
    var multi := ContainsAny(lower, ConfectionMultiWords);
    if beverage {
      assert Classify(itemName) == if bulk then BeverageBulk else BeverageSingle;
    } else if chip {
      assert Classify(itemName) == if family then SnackFamily else SnackRegular;
    } else if chocolate {
      assert Classify(itemName) == if multi then ConfectionMulti else ConfectionSingle;
    } else {
      assert Classify(itemName) == Generic;
    }
  }

  /** With a band: when some price lies in it the filter keeps exactly the
      in-band prices (in both directions), otherwise it keeps everything. */
  lemma FilterWithBand(prices: seq<int>, itemName: string, b: Band)
    requires Envelope(Classify(itemName)) == Some(b)
    ensures (exists i :: 0 <= i < |prices| && b.lo <= prices[i] <= b.hi) ==>
      forall x :: x in FilterByProductType(prices, itemName) <==> x in prices && b.lo <= x <= b.hi
    ensures (forall i :: 0 <= i < |prices| ==> !(b.lo <= prices[i] <= b.hi)) ==>
      FilterByProductType(prices, itemName) == prices
  {
    FilterFollowsEnvelope(prices, itemName);
    WithinExactly(prices, b);
    var inBand := Within(prices, b);
    if exists i :: 0 <= i < |prices| && b.lo <= prices[i] <= b.hi {
      var i :| 0 <= i < |prices| && b.lo <= prices[i] <= b.hi;
      assert prices[i] in inBand;
    } else {
      if inBand != [] {
        assert inBand[0] in prices;
      }
    }
  }

  /** Without a band (bulk drinks, multi-packs, other items) the filter
      changes nothing. */
  lemma FilterWithoutBand(prices: seq<int>, itemName: string)
    requires Envelope(Classify(itemName)) == None
    ensures FilterByProductType(prices, itemName) == prices
  {
    FilterFollowsEnvelope(prices, itemName);
  }

  /** Every name containing "chocolate" contains "cola", so the filter's
      chocolate branch is unreachable: no item is ever classified as a
      confection. */
  lemma NoConfection(itemName: string)
    ensures Classify(itemName) != ConfectionSingle
    ensures Classify(itemName) != ConfectionMulti
  {
    var lower := Lower(itemName);
    if Contains(lower, "chocolate") {
      ContainsTransitive(lower, "chocolate", "cola", 3);
      assert BeverageWords[2] == "cola";
    }
  }
}
