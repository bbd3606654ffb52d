/** `ReferenceModel`: a city-to-coordinates lookup with a default, and a
    regional price multiplier interpolated from six hub cities by inverse
    squared distance. Coordinates are exact reals; distances are kept
    squared, which is what the weight `1 / dist ** 2` needs. */
module RegionModel {
  import opened Text

  datatype Point = Point(lat: real, lon: real)

  datatype Hub = Hub(name: string, coords: Point, index: real)

  /** The hub table, in its declaration order. */
  const Hubs: seq<Hub> := [
    Hub("miami", Point(25.7617, -80.1918), 1.15),
    Hub("orlando", Point(28.5383, -81.3792), 1.02),
    Hub("tampa", Point(27.9506, -82.4572), 1.03),
    Hub("jacksonville", Point(30.3322, -81.6557), 0.95),
    Hub("tallahassee", Point(30.4383, -84.2807), 0.93),
    Hub("key west", Point(24.5551, -81.7800), 1.25)]

  /** Cities with known coordinates that are not hubs. */
  const KnownOthers: seq<(string, Point)> := [
    ("naples", Point(26.1420, -81.7948)),
    ("sarasota", Point(27.3364, -82.5307)),
    ("gainesville", Point(29.6516, -82.3248)),
    ("pensacola", Point(30.4213, -87.2169)),
    ("clearwater", Point(27.9659, -82.8001)),
    ("fort lauderdale", Point(26.1224, -80.1373))]

  /** The default for unknown cities: Orlando's coordinates. */
  const FloridaCenter: Point := Point(28.5383, -81.3792)

  const LowestIndex: real := 0.93
  const HighestIndex: real := 1.25

  /** The coordinates of the hub named `key`, looked up in `hubs`. */
  function HubCoords(hubs: seq<Hub>, key: string): (p: Option<Point>)
    ensures p.Some? <==> exists i :: 0 <= i < |hubs| && hubs[i].name == key
    ensures p.Some? ==> exists i :: 0 <= i < |hubs| && hubs[i].name == key && hubs[i].coords == p.value
  {
    if hubs == [] then None
    else if hubs[0].name == key then Some(hubs[0].coords)
    else
      var rest := HubCoords(hubs[1..], key);
      assert forall i :: 0 < i < |hubs| ==> hubs[i] == hubs[1..][i - 1];
      rest
  }

  /** The coordinates `key` is paired with in `table`. */
  function OtherCoords(table: seq<(string, Point)>, key: string): (p: Option<Point>)
    ensures p.Some? <==> exists i :: 0 <= i < |table| && table[i].0 == key
    ensures p.Some? ==> exists i :: 0 <= i < |table| && table[i].0 == key && table[i].1 == p.value
  {
    if table == [] then None
    else if table[0].0 == key then Some(table[0].1)
    else
      var rest := OtherCoords(table[1..], key);
      assert forall i :: 0 < i < |table| ==> table[i] == table[1..][i - 1];
      rest
  }

  /** The three-way lookup of `key`: the hubs first, then the other known
      cities, then the default. */
  function Lookup(hubs: seq<Hub>, table: seq<(string, Point)>, key: string): (p: Point)
    ensures (exists i :: 0 <= i < |hubs| && hubs[i].name == key) ==>
              exists i :: 0 <= i < |hubs| && hubs[i].name == key && p == hubs[i].coords
    ensures (forall i :: 0 <= i < |hubs| ==> hubs[i].name != key) &&
            (exists i :: 0 <= i < |table| && table[i].0 == key) ==>
              exists i :: 0 <= i < |table| && table[i].0 == key && p == table[i].1
    ensures (forall i :: 0 <= i < |hubs| ==> hubs[i].name != key) &&
            (forall i :: 0 <= i < |table| ==> table[i].0 != key) ==>
              p == FloridaCenter
  {
    match HubCoords(hubs, key)
    case Some(c) => c
    case None =>
      match OtherCoords(table, key)
      case Some(c) => c
      case None => FloridaCenter
  }

  /** `get_coordinates`: lower-cased and stripped, the name is looked up
      among the hubs, then the other known cities, then defaults. */
  function GetCoordinates(cityName: string): (p: Point)
  {
    Lookup(Hubs, KnownOthers, Strip(Lower(cityName)))
  }

  /** `dist ** 2`: the squared Euclidean distance in degrees. */
  function Dist2(p: Point, q: Point): real
  {
    (p.lat - q.lat) * (p.lat - q.lat) + (p.lon - q.lon) * (p.lon - q.lon)
  }

  /** A squared distance is never negative. */
  lemma Dist2NonNegative(p: Point, q: Point)
    ensures Dist2(p, q) >= 0.0
  {
    assert (p.lat - q.lat) * (p.lat - q.lat) >= 0.0;
    assert (p.lon - q.lon) * (p.lon - q.lon) >= 0.0;
  }

  /** A point is at distance zero from itself. */
  lemma Dist2Self(p: Point)
    ensures Dist2(p, p) == 0.0
  {
  }

  /** The hub's weight `1 / dist ** 2`; the loop never weighs a hub at distance zero. */
  function Weight(q: Point, h: Hub): real
  {
    if Dist2(q, h.coords) == 0.0 then 0.0 else 1.0 / Dist2(q, h.coords)
  }

  /** A hub at a non-zero distance has a positive weight. */
  lemma WeightPositive(q: Point, h: Hub)
    requires Dist2(q, h.coords) != 0.0
    ensures Weight(q, h) > 0.0
  {
    Dist2NonNegative(q, h.coords);
  }

  /** `total_weight` after the hubs `hs`. */
  function TotalWeight(q: Point, hs: seq<Hub>): (t: real)
  {
    if hs == [] then 0.0 else TotalWeight(q, hs[..|hs| - 1]) + Weight(q, hs[|hs| - 1])
  }

  /** `weighted_index` after the hubs `hs`. */
  function WeightedIndex(q: Point, hs: seq<Hub>): (t: real)
  {
    if hs == [] then 0.0
    else WeightedIndex(q, hs[..|hs| - 1]) + hs[|hs| - 1].index * Weight(q, hs[|hs| - 1])
  }

  /** The position of the first hub at distance zero from `q`, if any. */
  function HubAt(q: Point, hs: seq<Hub>): (k: Option<nat>)
    ensures k.Some? ==> k.value < |hs| && Dist2(q, hs[k.value].coords) == 0.0
    ensures k.Some? ==> forall j :: 0 <= j < k.value ==> Dist2(q, hs[j].coords) != 0.0
    ensures k.None? ==> forall j :: 0 <= j < |hs| ==> Dist2(q, hs[j].coords) != 0.0
  {
    if hs == [] then None
    else if Dist2(q, hs[0].coords) == 0.0 then Some(0)
    else
      match HubAt(q, hs[1..])
      case Some(k) => Some(k + 1)
      case None => None
  }

  /** Interpolation over a hub table: the index of the first hub at `q`,
      else the inverse-squared-distance weighted mean of the indices.
      `HubAt` tests `dist == 0` as the loop does; `Dist2Self` and
      `HubsApart` say when that test holds. */
  function Interpolate(q: Point, hs: seq<Hub>): (m: real)
    requires hs != []
  {
    match HubAt(q, hs)
    case Some(k) => hs[k].index
    case None =>
      TotalWeightPositive(q, hs);
      WeightedIndex(q, hs) / TotalWeight(q, hs)
  }

  /** The multiplier at `q`. */
  function Multiplier(q: Point): (m: real)
  {
    Interpolate(q, Hubs)
  }

  lemma {:induction false} TotalWeightPositive(q: Point, hs: seq<Hub>)
    requires hs != []
    requires forall j :: 0 <= j < |hs| ==> Dist2(q, hs[j].coords) != 0.0
    ensures TotalWeight(q, hs) > 0.0
  {
    if |hs| > 1 {
      TotalWeightPositive(q, hs[..|hs| - 1]);
    }
    WeightPositive(q, hs[|hs| - 1]);
  }

  /** The point a query is answered at: the coordinates when both are given,
      else the city's coordinates; with neither, `city.lower()` raises on
      `None`, which is `None` here. */
  function QueryPoint(city: Option<string>, latitude: Option<real>, longitude: Option<real>): (p: Option<Point>)
    ensures p.None? <==> city.None? && !(latitude.Some? && longitude.Some?)
    ensures latitude.Some? && longitude.Some? ==> p == Some(Point(latitude.value, longitude.value))
  {
    if latitude.Some? && longitude.Some? then Some(Point(latitude.value, longitude.value))
    else if city.Some? then Some(GetCoordinates(city.value))
    else None
  }

  /** The loop of `get_regional_multiplier` over a hub table. */
  method InterpolateLoop(q: Point, hs: seq<Hub>) returns (m: real)
    requires hs != []
    ensures m == Interpolate(q, hs)
  {
    var totalWeight := 0.0;
    var weightedIndex := 0.0;
    for k := 0 to |hs|
      invariant totalWeight == TotalWeight(q, hs[..k])
      invariant weightedIndex == WeightedIndex(q, hs[..k])
      invariant forall j :: 0 <= j < k ==> Dist2(q, hs[j].coords) != 0.0
    {
      var hub := hs[k];
      var d2 := Dist2(q, hub.coords);
      if d2 == 0.0 {
        HubAtFirst(q, hs, k);
        return hub.index;
      }
      var weight := 1.0 / d2;
      weightedIndex := weightedIndex + hub.index * weight;
      totalWeight := totalWeight + weight;
      assert hs[..k + 1][..k] == hs[..k];
    }
    assert hs[..|hs|] == hs;
    HubAtNone(q, hs);
    TotalWeightPositive(q, hs);
    m := weightedIndex / totalWeight;
  }

  /** `get_regional_multiplier`; `None` stands for the exception raised
      when neither both coordinates nor a city are given. */
  method RegionalMultiplier(city: Option<string>, latitude: Option<real>, longitude: Option<real>)
    returns (m: Option<real>)
    ensures m.None? <==> QueryPoint(city, latitude, longitude).None?
    ensures m.Some? ==> m.value == Multiplier(QueryPoint(city, latitude, longitude).value)
  {
    if latitude.Some? && longitude.Some? {
      var r := InterpolateLoop(Point(latitude.value, longitude.value), Hubs);
      m := Some(r);
    } else if city.Some? {
      var r := InterpolateLoop(GetCoordinates(city.value), Hubs);
      m := Some(r);
    } else {
      m := None;
    }
  }

  lemma {:induction false} HubAtFirst(q: Point, hs: seq<Hub>, k: nat)
    requires k < |hs| && Dist2(q, hs[k].coords) == 0.0
    requires forall j :: 0 <= j < k ==> Dist2(q, hs[j].coords) != 0.0
    ensures HubAt(q, hs) == Some(k)
  {
    if k > 0 {
      HubAtFirst(q, hs[1..], k - 1);
    }
  }

  lemma {:induction false} HubAtNone(q: Point, hs: seq<Hub>)
    requires forall j :: 0 <= j < |hs| ==> Dist2(q, hs[j].coords) != 0.0
    ensures HubAt(q, hs) == None
  {
    if hs != [] {
      HubAtNone(q, hs[1..]);
    }
  }

  /** Away from every hub the weighted index lies between the smallest and
      the largest index times the total weight. */
  lemma {:induction false} WeightedIndexBounds(q: Point, hs: seq<Hub>)
    requires forall j :: 0 <= j < |hs| ==> 0.93 <= hs[j].index <= 1.25
    requires forall j :: 0 <= j < |hs| ==> Dist2(q, hs[j].coords) != 0.0
    ensures 0.93 * TotalWeight(q, hs) <= WeightedIndex(q, hs) <= 1.25 * TotalWeight(q, hs)
  {
    if hs != [] {
      var last := hs[|hs| - 1];
      WeightedIndexBounds(q, hs[..|hs| - 1]);
      WeightPositive(q, last);
      ScaleBounds(last.index, Weight(q, last));
    }
  }

  lemma ScaleBounds(x: real, w: real)
    requires w > 0.0 && 0.93 <= x <= 1.25
    ensures 0.93 * w <= x * w <= 1.25 * w
  {
    assert (x - 0.93) * w >= 0.0 * w;
    assert (1.25 - x) * w >= 0.0 * w;
  }

  lemma RatioBounds(x: real, t: real, lo: real, hi: real)
    requires t > 0.0 && lo * t <= x <= hi * t
    ensures lo <= x / t <= hi
  {
    assert x / t - lo == (x - lo * t) / t;
    assert hi - x / t == (hi * t - x) / t;
  }

  /** The multiplier always lies between the smallest and the largest hub index. */
  lemma MultiplierBounds(q: Point)
    ensures LowestIndex <= Multiplier(q) <= HighestIndex
  {
    assert forall j :: 0 <= j < |Hubs| ==> LowestIndex <= Hubs[j].index <= HighestIndex;
    if HubAt(q, Hubs).None? {
      WeightedIndexBounds(q, Hubs);
      TotalWeightPositive(q, Hubs);
      RatioBounds(WeightedIndex(q, Hubs), TotalWeight(q, Hubs), LowestIndex, HighestIndex);
    }
  }

  /** At a hub's own coordinates the multiplier is that hub's index: no two
      hubs share coordinates. */
  lemma MultiplierAtHub(k: nat)
    requires k < |Hubs|
    ensures Multiplier(Hubs[k].coords) == Hubs[k].index
  {
    Dist2Self(Hubs[k].coords);
    forall j | 0 <= j < k
      ensures Dist2(Hubs[k].coords, Hubs[j].coords) != 0.0
    {
      HubsApart(k, j);
    }
    HubAtFirst(Hubs[k].coords, Hubs, k);
  }

  /** Distinct hubs are at a non-zero distance from each other. */
  lemma HubsApart(i: nat, j: nat)
    requires i < |Hubs| && j < |Hubs| && i != j
    ensures Dist2(Hubs[i].coords, Hubs[j].coords) > 0.0
  {
    var p, q := Hubs[i].coords, Hubs[j].coords;
    Dist2NonNegative(p, q);
    assert (p.lat - q.lat) * (p.lat - q.lat) > 0.0;
  }

  /** A hub's own name, in any letter case and with surrounding blanks,
      gives that hub's index. */
  lemma HubCityMultiplier(cityName: string, k: nat)
    requires k < |Hubs| && Strip(Lower(cityName)) == Hubs[k].name
    ensures Multiplier(QueryPoint(Some(cityName), None, None).value) == Hubs[k].index
  {
    HubNamesDistinct(k);
    HubCoordsAt(Hubs, Strip(Lower(cityName)), k);
    assert QueryPoint(Some(cityName), None, None).value == Hubs[k].coords;
    MultiplierAtHub(k);
  }

  lemma HubNamesDistinct(k: nat)
    requires k < |Hubs|
    ensures forall j :: 0 <= j < k ==> Hubs[j].name != Hubs[k].name
  {
    forall j | 0 <= j < k
      ensures Hubs[j].name != Hubs[k].name
    {
      assert Hubs[j].name[0] != Hubs[k].name[0] || |Hubs[j].name| != |Hubs[k].name|;
    }
  }

  /** The lookup finds the first hub carrying the name. */
  lemma {:induction false} HubCoordsAt(hubs: seq<Hub>, key: string, k: nat)
    requires k < |hubs| && hubs[k].name == key
    requires forall j :: 0 <= j < k ==> hubs[j].name != key
    ensures HubCoords(hubs, key) == Some(hubs[k].coords)
  {
    if k > 0 {
      HubCoordsAt(hubs[1..], key, k - 1);
    }
  }

  /** A key found in neither table is looked up to Orlando's coordinates. */
  lemma UnknownKey(key: string)
    requires forall i :: 0 <= i < |Hubs| ==> Hubs[i].name != key
    requires forall i :: 0 <= i < |KnownOthers| ==> KnownOthers[i].0 != key
    ensures Lookup(Hubs, KnownOthers, key) == FloridaCenter
  {
  }

  /** Orlando's coordinates, the default, carry Orlando's index. */
  lemma DefaultMultiplier()
    ensures Multiplier(FloridaCenter) == 1.02
  {
    MultiplierAtHub(1);
  }

  /** A city known to neither table is answered at Orlando's coordinates,
      so its multiplier is Orlando's index, 1.02. */
  lemma UnknownCityMultiplier(cityName: string)
    requires forall i :: 0 <= i < |Hubs| ==> Hubs[i].name != Strip(Lower(cityName))
    requires forall i :: 0 <= i < |KnownOthers| ==> KnownOthers[i].0 != Strip(Lower(cityName))
    ensures Multiplier(QueryPoint(Some(cityName), None, None).value) == 1.02
  {
    UnknownKey(Strip(Lower(cityName)));
    DefaultMultiplier();
  }

  /** Given both coordinates, the city is not consulted. */
  lemma CoordinatesOverrideCity(city: Option<string>, latitude: real, longitude: real)
    ensures Multiplier(QueryPoint(city, Some(latitude), Some(longitude)).value) ==
            Multiplier(Point(latitude, longitude))
  {
  }
}
