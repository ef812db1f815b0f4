/**
 * The Home page: five sample hostels, its own copy of `handleSearch` (the same
 * evaluator as the Search page) and the featured grid that shows at most six
 * results.
 */
module HomePage {
  import opened Wrappers
  import opened Seqs
  import opened HostelFilter

  /** The Home page's sample list (its records carry no category). */
  function SampleHostels(): seq<Hostel> {
    [ Hostel("1", "Sunshine Hostel", "Koramangala, Bangalore", 8000, Month, 12,
             ["WiFi", "AC", "Laundry", "Meals"], Available, None),
      Hostel("2", "Green Valley PG", "HSR Layout, Bangalore", 7500, Month, 5,
             ["WiFi", "AC", "Gym", "Meals"], FewRooms, None),
      Hostel("3", "City Living Hostel", "Indiranagar, Bangalore", 9000, Month, 0,
             ["WiFi", "AC", "Pool", "Meals"], Full, None),
      Hostel("4", "Budget Stay", "Whitefield, Bangalore", 300, Day, 8,
             ["WiFi", "Laundry"], Available, None),
      Hostel("5", "Hourly Rest", "Electronic City, Bangalore", 150, Hour, 15,
             ["WiFi", "AC"], Available, None) ]
  }

  /** The slice the featured grid draws: the first six results, in order. */
  function FirstSix(results: seq<Hostel>): (shown: seq<Hostel>)
    ensures |shown| == if |results| < 6 then |results| else 6
    ensures IsSubsequence(shown, results)
    ensures |results| <= 6 ==> shown == results
    ensures forall i :: 0 <= i < |shown| ==> shown[i] == results[i]
  {
    PrefixIsSubsequence(results, if |results| < 6 then |results| else 6);
    assert results[..|results|] == results;
    if |results| < 6 then results else results[..6]
  }

  class Page {
    var searchResults: seq<Hostel>

    ghost predicate Valid()
      reads this
    {
      IsSubsequence(searchResults, SampleHostels())
    }

    constructor()
      ensures Valid() && searchResults == SampleHostels()
    {
      searchResults := SampleHostels();
      SubsequenceOfItself(SampleHostels());
    }

    /** `handleSearch`, the same evaluator as the Search page's, over this page's samples. */
    method HandleSearch(filters: SearchFilters)
      modifies this
      ensures Valid()
      ensures searchResults == Search(SampleHostels(), filters)
    {
      var filtered := SampleHostels();
      if filters.location != "" {
        filtered := ByLocation(filtered, filters.location);
      }
      if PriceFilterActive(filters) {
        filtered := ByPrice(filtered, filters.priceRange);
      }
      searchResults := filtered;
      SearchIsSubsequence(SampleHostels(), filters);
    }

    /**
     * The featured grid. With five samples no search yields more than six
     * results, so the grid always shows every result.
     */
    function Featured(): (shown: seq<Hostel>)
      reads this
      requires Valid()
      ensures shown == searchResults
    {
      SubsequenceNoLonger(searchResults, SampleHostels());
      FirstSix(searchResults)
    }
  }

  /** 150 per hour is 108000 a month: in the open "15000+" bucket, outside "0-5000". */
  lemma HourlySampleBuckets()
    ensures MonthlyPrice(SampleHostels()[4]) == 108000
    ensures PriceMatches(SampleHostels()[4], "15000+")
    ensures !PriceMatches(SampleHostels()[4], "0-5000")
  {
    FormBuckets();
  }

  /** The samples' monthly equivalents: 8000, 7500, 9000, 300 x 30 and 150 x 720. */
  lemma SampleMonthlyPrices()
    ensures |SampleHostels()| == 5
    ensures MonthlyPrice(SampleHostels()[0]) == 8000
    ensures MonthlyPrice(SampleHostels()[1]) == 7500
    ensures MonthlyPrice(SampleHostels()[2]) == 9000
    ensures MonthlyPrice(SampleHostels()[3]) == 9000
    ensures MonthlyPrice(SampleHostels()[4]) == 108000
  {
  }

  /** No sample is priced at 5000 a month or less. */
  lemma LowBucketFindsNothing(f: SearchFilters)
    requires f.location == "" && f.priceRange == "0-5000"
    ensures Search(SampleHostels(), f) == []
  {
    var s := SampleHostels();
    var p := h => PriceMatches(h, "0-5000");
    LowBucketBounds();
    SampleMonthlyPrices();
    assert PriceFilterActive(f);
    forall i | 0 <= i < |s|
      ensures !p(s[i])
    {
      assert MonthlyPrice(s[i]) > 5000 by {
        assert i == 0 || i == 1 || i == 2 || i == 3 || i == 4;
      }
    }
    FilterKeepsNone(s, p);
  }

  /** 300 a day is 9000 a month, so "Budget Stay" joins the three monthly hostels in "5000-10000". */
  lemma MiddleBucketKeepsFirstFour(f: SearchFilters)
    requires f.location == "" && f.priceRange == "5000-10000"
    ensures Search(SampleHostels(), f) == SampleHostels()[..4]
  {
    var s := SampleHostels();
    var p := h => PriceMatches(h, "5000-10000");
    MiddleBucketBounds();
    SampleMonthlyPrices();
    assert PriceFilterActive(f);
    assert p(s[0]) && p(s[1]) && p(s[2]) && p(s[3]) && !p(s[4]);
    KeepFirstFourOfFive(s, p);
  }

  lemma KeepFirstFourOfFive(s: seq<Hostel>, p: Hostel -> bool)
    requires |s| == 5
    requires p(s[0]) && p(s[1]) && p(s[2]) && p(s[3]) && !p(s[4])
    ensures Filter(s, p) == s[..4]
  {
    assert s[4..][1..] == [];
    assert Filter(s[4..], p) == [];
    FilterKeepsHead(s[3..], p);
    assert s[3..][1..] == s[4..];
    FilterKeepsHead(s[2..], p);
    assert s[2..][1..] == s[3..];
    FilterKeepsHead(s[1..], p);
    assert s[1..][1..] == s[2..];
    FilterKeepsHead(s, p);
  }

  /** A first element that passes stays in front of the filtered rest. */
  lemma FilterKeepsHead(s: seq<Hostel>, p: Hostel -> bool)
    requires |s| > 0 && p(s[0])
    ensures Filter(s, p) == [s[0]] + Filter(s[1..], p)
  {
  }
}
