/**
 * The listing search evaluator behind `handleSearch`, which the Search page
 * and the Home page each carry a copy of: a location narrowing followed by a
 * price-bucket narrowing over monthly-equivalent prices.
 */
module HostelFilter {
  import opened Wrappers
  import opened Seqs
  import opened JsText

  datatype PriceType = Hour | Day | Month

  datatype Availability = Available | FewRooms | Full

  /** A hostel record as the sample lists hold it (rating, image are display only). */
  datatype Hostel = Hostel(
    id: string,
    name: string,
    location: string,
    price: nat,
    priceType: PriceType,
    vacantBeds: nat,
    amenities: seq<string>,
    status: Availability,
    category: Option<string>)

  /**
   * What the filter form submits. Only `location` and `priceRange` are read by
   * the evaluator; room type, amenities, gender and the optional check-in
   * date (kept as its text) are carried and ignored.
   */
  datatype SearchFilters = SearchFilters(
    location: string,
    priceRange: string,
    roomType: string,
    amenities: string,
    gender: string,
    checkIn: Option<string>)

  /** The two numbers of a `"min-max"` or `"min+"` bucket; None stands for NaN or undefined. */
  datatype Bounds = Bounds(min: Option<int>, max: Option<int>)

  /** The monthly equivalent of a price: a month is 30 days of 24 hours. */
  function MonthlyPrice(h: Hostel): (m: int)
    ensures m >= h.price
    ensures h.priceType == Month ==> m == h.price
    ensures h.priceType == Day ==> m == 30 * h.price
    ensures h.priceType == Hour ==> m == 720 * h.price
  {
    match h.priceType
    case Month => h.price
    case Day => h.price * 30
    case Hour => h.price * 24 * 30
  }

  /** The bucket split at every '-', its first two pieces read with parseInt (a missing piece is undefined). */
  function PriceBounds(range: string): (b: Bounds)
    ensures '-' !in range ==> b == Bounds(ParseInt(range), None)
  {
    var parts := Split(range, '-');
    assert '-' !in range ==> parts == [range] by {
      if '-' !in range {
        SplitWithoutSeparator(range, '-');
      }
    }
    Bounds(ParseInt(parts[0]), if |parts| > 1 then ParseInt(parts[1]) else None)
  }

  /** JavaScript truthiness of the upper bound: NaN, undefined and 0 are falsy. */
  function Truthy(max: Option<int>): (t: bool)
    ensures max == None ==> !t
    ensures max == Some(0) ==> !t
    ensures forall n :: n != 0 && max == Some(n) ==> t
  {
    max.Some? && max.value != 0
  }

  /**
   * The bucket test: with a truthy upper bound the price must lie between
   * the bounds, both included; otherwise it must reach the lower bound.
   * Every comparison with NaN is false.
   */
  function InBounds(monthly: int, b: Bounds): (t: bool)
    ensures t ==> b.min.Some? && b.min.value <= monthly
    ensures t && Truthy(b.max) ==> monthly <= b.max.value
  {
    if Truthy(b.max) then b.min.Some? && b.min.value <= monthly && monthly <= b.max.value
    else b.min.Some? && b.min.value <= monthly
  }

  predicate LocationMatches(h: Hostel, query: string) {
    NameOrLocationMatches(h.name, h.location, query)
  }

  predicate PriceMatches(h: Hostel, range: string) {
    InBounds(MonthlyPrice(h), PriceBounds(range))
  }

  /** The price stage runs only for a non-empty range other than "any". */
  predicate PriceFilterActive(f: SearchFilters) {
    f.priceRange != "" && f.priceRange != "any"
  }

  /** The location stage: keep the records whose name or location matches the query. */
  function ByLocation(hostels: seq<Hostel>, query: string): seq<Hostel> {
    Filter(hostels, h => LocationMatches(h, query))
  }

  /** The price stage: keep the records whose monthly price lies in the bucket. */
  function ByPrice(hostels: seq<Hostel>, range: string): seq<Hostel> {
    Filter(hostels, h => PriceMatches(h, range))
  }

  /** The result of `handleSearch` on a candidate list. */
  function Search(hostels: seq<Hostel>, f: SearchFilters): (r: seq<Hostel>)
    ensures |r| <= |hostels|
    ensures forall h :: h in r ==> h in hostels && Keeps(h, f)
  {
    var byLocation := if f.location != "" then ByLocation(hostels, f.location) else hostels;
    if PriceFilterActive(f) then ByPrice(byLocation, f.priceRange) else byLocation
  }

  /** Whether one record passes every criterion that `f` switches on. */
  predicate Keeps(h: Hostel, f: SearchFilters) {
    && (f.location == "" || LocationMatches(h, f.location))
    && (!PriceFilterActive(f) || PriceMatches(h, f.priceRange))
  }

  // ---------------------------------------------------------------- properties

  /** The two-stage narrowing is a single filter by `Keeps`. */
  lemma SearchIsOneFilter(hostels: seq<Hostel>, f: SearchFilters)
    ensures Search(hostels, f) == Filter(hostels, h => Keeps(h, f))
  {
    var keep := h => Keeps(h, f);
    var loc := h => LocationMatches(h, f.location);
    var price := h => PriceMatches(h, f.priceRange);
    var always := (h: Hostel) => true;
    FilterKeepsAll(hostels, always);
    if f.location != "" && PriceFilterActive(f) {
      FilterFusion(hostels, loc, price, keep);
    } else if f.location != "" {
      FilterFusion(hostels, loc, always, keep);
      FilterKeepsAll(Filter(hostels, loc), always);
    } else if PriceFilterActive(f) {
      FilterFusion(hostels, always, price, keep);
    } else {
      FilterFusion(hostels, always, always, keep);
      FilterKeepsAll(hostels, always);
    }
  }

  /** A record is in the result exactly when it is a candidate that passes every criterion. */
  lemma SearchMembership(hostels: seq<Hostel>, f: SearchFilters, h: Hostel)
    ensures h in Search(hostels, f) <==> h in hostels && Keeps(h, f)
  {
    SearchIsOneFilter(hostels, f);
    FilterMembership(hostels, x => Keeps(x, f), h);
  }

  /** The result keeps the candidates' order and never invents or repeats one. */
  lemma SearchIsSubsequence(hostels: seq<Hostel>, f: SearchFilters)
    ensures IsSubsequence(Search(hostels, f), hostels)
  {
    SearchIsOneFilter(hostels, f);
    FilterIsSubsequence(hostels, h => Keeps(h, f));
  }

  /** Searching the result again with the same filters returns it unchanged. */
  lemma SearchIdempotent(hostels: seq<Hostel>, f: SearchFilters)
    ensures Search(Search(hostels, f), f) == Search(hostels, f)
  {
    SearchIsOneFilter(hostels, f);
    SearchIsOneFilter(Search(hostels, f), f);
    FilterIdempotent(hostels, h => Keeps(h, f));
  }

  /** Empty location and an empty or "any" price range leave the candidates as they are. */
  lemma SearchWithoutCriteria(hostels: seq<Hostel>, f: SearchFilters)
    requires f.location == "" && !PriceFilterActive(f)
    ensures Search(hostels, f) == hostels
  {
  }

  /** The location match ignores letter case in the query. */
  lemma SearchIgnoresQueryCase(hostels: seq<Hostel>, f: SearchFilters, g: SearchFilters)
    requires ToLower(f.location) == ToLower(g.location)
    requires f.priceRange == g.priceRange
    ensures Search(hostels, f) == Search(hostels, g)
  {
    assert (f.location == "") == (g.location == "");
    assert forall h :: Keeps(h, f) == Keeps(h, g);
    SearchIsOneFilter(hostels, f);
    SearchIsOneFilter(hostels, g);
    FilterFusion(hostels, h => Keeps(h, f), (h: Hostel) => true, h => Keeps(h, g));
    FilterKeepsAll(Filter(hostels, h => Keeps(h, f)), (h: Hostel) => true);
  }

  /** "SUNSHINE" and "sunshine" find the same hostels. */
  lemma SearchQueryCaseExample(hostels: seq<Hostel>, f: SearchFilters)
    ensures Search(hostels, f.(location := "SUNSHINE")) == Search(hostels, f.(location := "sunshine"))
  {
    assert ToLower("SUNSHINE") == "sunshine" == ToLower("sunshine");
    SearchIgnoresQueryCase(hostels, f.(location := "SUNSHINE"), f.(location := "sunshine"));
  }

  /**
   * No permissive fallback: when the price stage is on and the lower bound
   * does not parse (NaN), every record fails and the result is empty.
   */
  lemma SearchUnparsableMinIsEmpty(hostels: seq<Hostel>, f: SearchFilters)
    requires PriceFilterActive(f)
    requires PriceBounds(f.priceRange).min.None?
    ensures Search(hostels, f) == []
  {
    SearchIsOneFilter(hostels, f);
    FilterKeepsNone(hostels, h => Keeps(h, f));
  }

  /** Both bounds of a bucket are inclusive; a falsy upper bound means no upper bound. */
  lemma InBoundsIff(monthly: int, b: Bounds)
    ensures InBounds(monthly, b) <==>
      (b.min.Some? && b.min.value <= monthly && (!Truthy(b.max) || monthly <= b.max.value))
  {
  }

  /** An hourly rate prices like a daily rate of 24 hours. */
  lemma HourIsTwentyFourTimesDay(h: Hostel)
    requires h.priceType == Hour
    ensures MonthlyPrice(h) == MonthlyPrice(h.(priceType := Day, price := 24 * h.price))
  {
  }

  /** The buckets the filter form offers, read as bounds. */
  lemma FormBuckets()
    ensures PriceBounds("0-5000") == Bounds(Some(0), Some(5000))
    ensures PriceBounds("5000-10000") == Bounds(Some(5000), Some(10000))
    ensures PriceBounds("10000-15000") == Bounds(Some(10000), Some(15000))
    ensures PriceBounds("15000+") == Bounds(Some(15000), None)
  {
    LowBucketBounds();
    MiddleBucketBounds();
    HighBucketBounds();
    OpenBucketBounds();
  }

  lemma LowBucketBounds()
    ensures PriceBounds("0-5000") == Bounds(Some(0), Some(5000))
  {
    BoundaryTexts();
    BucketBounds("0", "5000", 0, 5000);
    assert "0" + "-" + "5000" == "0-5000";
  }

  lemma MiddleBucketBounds()
    ensures PriceBounds("5000-10000") == Bounds(Some(5000), Some(10000))
  {
    BoundaryTexts();
    BucketBounds("5000", "10000", 5000, 10000);
    assert "5000" + "-" + "10000" == "5000-10000";
  }

  lemma HighBucketBounds()
    ensures PriceBounds("10000-15000") == Bounds(Some(10000), Some(15000))
  {
    BoundaryTexts();
    BucketBounds("10000", "15000", 10000, 15000);
    assert "10000" + "-" + "15000" == "10000-15000";
  }

  lemma BoundaryTexts()
    ensures NatText(0) == "0" && NatText(5000) == "5000"
    ensures NatText(10000) == "10000" && NatText(15000) == "15000"
  {
    assert NatText(5) == "5" && NatText(1) == "1";
    assert NatText(50) == "50" && NatText(10) == "10" && NatText(15) == "15";
    assert NatText(500) == "500" && NatText(100) == "100" && NatText(150) == "150";
    assert NatText(1000) == "1000" && NatText(1500) == "1500";
  }

  lemma OpenBucketBounds()
    ensures PriceBounds("15000+") == Bounds(Some(15000), None)
  {
    BoundaryTexts();
    assert "15000+" == NatText(15000) + "+";
    SplitWithoutSeparator("15000+", '-');
    ParseIntOfNatText(15000, "+");
  }

  /** A string without the separator splits into itself alone. */
  lemma {:induction false} SplitWithoutSeparator(s: string, sep: char)
    requires sep !in s
    ensures Split(s, sep) == [s]
    decreases |s|
  {
    if |s| != 0 {
      assert sep !in s[1..];
      SplitWithoutSeparator(s[1..], sep);
      assert [s[0]] + s[1..] == s;
    }
  }

  lemma {:induction false} SplitAtSeparator(a: string, b: string, sep: char)
    requires sep !in a && sep !in b
    ensures Split(a + [sep] + b, sep) == [a, b]
    decreases |a|
  {
    if |a| == 0 {
      assert a + [sep] + b == [sep] + b;
      assert ([sep] + b)[1..] == b;
      SplitWithoutSeparator(b, sep);
    } else {
      assert (a + [sep] + b)[1..] == a[1..] + [sep] + b;
      SplitAtSeparator(a[1..], b, sep);
      assert [a[0]] + a[1..] == a;
    }
  }

  lemma BucketBounds(lo: string, hi: string, min: nat, max: nat)
    requires lo == NatText(min) && hi == NatText(max)
    ensures PriceBounds(lo + "-" + hi) == Bounds(Some(min), Some(max))
  {
    assert '-' !in lo && '-' !in hi by {
      assert forall i :: 0 <= i < |lo| ==> IsDigit(lo[i]);
      assert forall i :: 0 <= i < |hi| ==> IsDigit(hi[i]);
    }
    SplitAtSeparator(lo, hi, '-');
    assert lo + "-" + hi == lo + ['-'] + hi;
    ParseIntOfNatText(min, "");
    ParseIntOfNatText(max, "");
    assert lo + "" == lo && hi + "" == hi;
  }

  /** A price on a bucket's edge belongs to both buckets that share the edge. */
  lemma SharedEdgeInBothBuckets()
    ensures InBounds(5000, PriceBounds("0-5000")) && InBounds(5000, PriceBounds("5000-10000"))
    ensures InBounds(10000, PriceBounds("5000-10000")) && InBounds(10000, PriceBounds("10000-15000"))
    ensures InBounds(15000, PriceBounds("10000-15000")) && InBounds(15000, PriceBounds("15000+"))
  {
    FormBuckets();
  }

  /** A bucket whose upper number is 0 is read as having no upper bound. */
  lemma ZeroUpperBoundIsUnbounded(monthly: int, min: int)
    requires min <= monthly
    ensures InBounds(monthly, Bounds(Some(min), Some(0)))
  {
  }
}
