/**
 * The Search page: eight sample hostels, the `searchResults` state that
 * `handleSearch` and "Clear Filters" replace, and the map toggle.
 */
module SearchPage {
  import opened Wrappers
  import opened Seqs
  import opened HostelFilter

  /** The page's full sample list, the candidates of every search. */
  function SampleHostels(): seq<Hostel> {
    [ Hostel("1", "Sunshine Hostel", "Koramangala, Bangalore", 8000, Month, 12,
             ["WiFi", "AC", "Laundry", "Meals"], Available, Some("Students & Working Women")),
      Hostel("2", "Green Valley PG", "HSR Layout, Bangalore", 7500, Month, 5,
             ["WiFi", "AC", "Gym", "Meals"], FewRooms, Some("Working Women Only")),
      Hostel("3", "City Living Hostel", "Indiranagar, Bangalore", 9000, Month, 0,
             ["WiFi", "AC", "Pool", "Meals"], Full, Some("Students Only")),
      Hostel("4", "Budget Stay", "Whitefield, Bangalore", 300, Day, 8,
             ["WiFi", "Laundry"], Available, Some("Working Women Only")),
      Hostel("5", "Hourly Rest", "Electronic City, Bangalore", 150, Hour, 15,
             ["WiFi", "AC"], Available, Some("Students & Working Women")),
      Hostel("6", "Executive Stay", "Marathahalli, Bangalore", 10000, Month, 7,
             ["WiFi", "AC", "Gym", "Pool", "Meals"], Available, Some("Working Women Only")),
      Hostel("7", "Student Hub", "BTM Layout, Bangalore", 6500, Month, 20,
             ["WiFi", "AC", "Study Area", "Meals"], Available, Some("Students Only")),
      Hostel("8", "Corporate Residency", "Bellandur, Bangalore", 11500, Month, 3,
             ["WiFi", "AC", "Gym", "Pool", "Conference Room"], FewRooms, Some("Working Women Only")) ]
  }

  class Page {
    var searchResults: seq<Hostel>
    var showMap: bool

    /** What is on screen is always drawn, in order, from the sample list. */
    ghost predicate Valid()
      reads this
    {
      IsSubsequence(searchResults, SampleHostels())
    }

    constructor()
      ensures Valid()
      ensures searchResults == SampleHostels() && !showMap
    {
      searchResults := SampleHostels();
      showMap := false;
      SubsequenceOfItself(SampleHostels());
    }

    /**
     * `handleSearch`: narrows a fresh copy of the sample list, so the new
     * results do not depend on any earlier search.
     */
    method HandleSearch(filters: SearchFilters)
      modifies this
      ensures Valid()
      ensures searchResults == Search(SampleHostels(), filters)
      ensures showMap == old(showMap)
    {
      var filtered := SampleHostels();
      if filters.location != "" {
        filtered := ByLocation(filtered, filters.location);
      }
      if PriceFilterActive(filters) {
        filtered := ByPrice(filtered, filters.priceRange);
      }
      searchResults := filtered;
      SearchIsSubsequence(SampleHostels(), filters);
    }

    /** "Clear Filters" puts the full sample list back. */
    method ClearFilters()
      modifies this
      ensures Valid()
      ensures searchResults == SampleHostels() && showMap == old(showMap)
    {
      searchResults := SampleHostels();
      SubsequenceOfItself(SampleHostels());
    }

    method ToggleMap()
      modifies this
      ensures showMap == !old(showMap) && searchResults == old(searchResults)
    {
      showMap := !showMap;
    }

    /** The "N hostels found" figure; the empty-state block shows exactly when it is 0. */
    function ResultCount(): (n: nat)
      reads this
      requires Valid()
      ensures n == |searchResults| && n <= |SampleHostels()|
    {
      SubsequenceNoLonger(searchResults, SampleHostels());
      |searchResults|
    }
  }

  /** Two searches in a row show what the second search alone would show. */
  method SearchTwice(page: Page, first: SearchFilters, second: SearchFilters)
    modifies page
    ensures page.searchResults == Search(SampleHostels(), second)
  {
    page.HandleSearch(first);
    page.HandleSearch(second);
  }
}
