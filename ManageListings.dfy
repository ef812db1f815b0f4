/**
 * The host's "Manage Listings" page: the current `listings` state, the search
 * box that narrows the visible listings, deletion by id and the integer
 * summary figures (listing count and total beds).
 */
module ManageListings {
  import opened Seqs
  import opened JsText

  datatype Pricing = Pricing(hour: nat, day: nat, month: nat)

  datatype Listing = Listing(
    id: string,
    name: string,
    location: string,
    totalBeds: nat,
    occupiedBeds: nat,
    monthlyRevenue: nat,
    status: string,
    amenities: seq<string>,
    pricing: Pricing)

  function SampleListings(): seq<Listing> {
    [ Listing("L001", "Sunshine Hostel", "Koramangala, Bangalore", 20, 8, 64000, "active",
              ["WiFi", "AC", "Laundry", "Meals"], Pricing(150, 300, 8000)),
      Listing("L002", "Green Valley PG", "HSR Layout, Bangalore", 15, 10, 75000, "active",
              ["WiFi", "AC", "Gym", "Meals"], Pricing(120, 250, 7500)),
      Listing("L003", "City Living Hostel", "Indiranagar, Bangalore", 25, 25, 225000, "full",
              ["WiFi", "AC", "Pool", "Meals"], Pricing(200, 400, 9000)) ]
  }

  /** `filteredListings`: the listings whose name or location contains the search term, any case. */
  function Visible(listings: seq<Listing>, searchTerm: string): (shown: seq<Listing>)
    ensures |shown| <= |listings|
    ensures forall l :: l in shown ==> l in listings && NameOrLocationMatches(l.name, l.location, searchTerm)
  {
    Filter(listings, (l: Listing) => NameOrLocationMatches(l.name, l.location, searchTerm))
  }

  /** `handleDeleteListing`'s new list: every listing whose id differs from `id`, in order. */
  function WithoutId(listings: seq<Listing>, id: string): (kept: seq<Listing>)
    ensures |kept| <= |listings|
    ensures forall l :: l in kept ==> l in listings && l.id != id
  {
    Filter(listings, (l: Listing) => l.id != id)
  }

  /** The sum of the listings' `totalBeds`, folded from 0. */
  function TotalBeds(listings: seq<Listing>): (total: nat)
    ensures |listings| == 0 ==> total == 0
    ensures forall i :: 0 <= i < |listings| ==> listings[i].totalBeds <= total
    decreases |listings|
  {
    if |listings| == 0 then 0 else listings[0].totalBeds + TotalBeds(listings[1..])
  }

  /** No two listings share an id. */
  predicate UniqueIds(listings: seq<Listing>) {
    forall i, j :: 0 <= i < j < |listings| ==> listings[i].id != listings[j].id
  }

  /** The empty-state text under the search box. */
  function EmptyStateMessage(searchTerm: string): (msg: string)
    ensures searchTerm != "" <==> msg == "No listings match your search criteria."
  {
    if searchTerm != "" then "No listings match your search criteria."
    else "You haven't created any listings yet."
  }

  /** `getStatusBadge`: the label of a listing status; an unknown status shows itself. */
  function StatusLabel(status: string): (text: string)
    ensures status !in {"active", "full", "inactive"} ==> text == status
    ensures status == "active" ==> text == "Active"
    ensures status == "full" ==> text == "Fully Booked"
    ensures status == "inactive" ==> text == "Inactive"
  {
    match status
    case "active" => "Active"
    case "full" => "Fully Booked"
    case "inactive" => "Inactive"
    case _ => status
  }

  // ---------------------------------------------------------------- properties

  /** The view keeps exactly the listings whose name or location contains the term. */
  lemma VisibleMembership(listings: seq<Listing>, searchTerm: string, l: Listing)
    ensures l in Visible(listings, searchTerm) <==>
      l in listings && NameOrLocationMatches(l.name, l.location, searchTerm)
  {
    FilterMembership(listings, (x: Listing) => NameOrLocationMatches(x.name, x.location, searchTerm), l);
  }

  /** The view keeps the order of the listings. */
  lemma VisibleIsSubsequence(listings: seq<Listing>, searchTerm: string)
    ensures IsSubsequence(Visible(listings, searchTerm), listings)
  {
    FilterIsSubsequence(listings, (l: Listing) => NameOrLocationMatches(l.name, l.location, searchTerm));
  }

  /** An empty search term shows every listing: every string contains "". */
  lemma EmptyTermShowsAll(listings: seq<Listing>)
    ensures Visible(listings, "") == listings
  {
    assert ToLower("") == "";
    forall l: Listing | l in listings
      ensures NameOrLocationMatches(l.name, l.location, "")
    {
      IncludesEmpty(ToLower(l.name));
    }
    FilterKeepsAll(listings, (l: Listing) => NameOrLocationMatches(l.name, l.location, ""));
  }

  /** Deletion removes every listing with the id and keeps the others, in order. */
  lemma DeleteMembership(listings: seq<Listing>, id: string, l: Listing)
    ensures l in WithoutId(listings, id) <==> l in listings && l.id != id
  {
    FilterMembership(listings, (x: Listing) => x.id != id, l);
  }

  lemma DeleteIsSubsequence(listings: seq<Listing>, id: string)
    ensures IsSubsequence(WithoutId(listings, id), listings)
  {
    FilterIsSubsequence(listings, (l: Listing) => l.id != id);
  }

  /** Deleting an id that no listing has changes nothing. */
  lemma DeleteAbsentIsNoOp(listings: seq<Listing>, id: string)
    requires forall l :: l in listings ==> l.id != id
    ensures WithoutId(listings, id) == listings
  {
    FilterKeepsAll(listings, (l: Listing) => l.id != id);
  }

  /** Deleting the same id twice is deleting it once. */
  lemma DeleteTwiceIsOnce(listings: seq<Listing>, id: string)
    ensures WithoutId(WithoutId(listings, id), id) == WithoutId(listings, id)
  {
    FilterIdempotent(listings, (l: Listing) => l.id != id);
  }

  /** A deleted listing can no longer show up, whatever the search term. */
  lemma DeletedNeverVisible(listings: seq<Listing>, id: string, searchTerm: string, l: Listing)
    requires l in Visible(WithoutId(listings, id), searchTerm)
    ensures l.id != id
  {
    VisibleMembership(WithoutId(listings, id), searchTerm, l);
  }

  /**
   * With unique ids, deleting the listing at position `k` lowers the bed
   * total by exactly that listing's beds.
   */
  lemma {:induction false} DeleteLowersTotalBeds(listings: seq<Listing>, k: nat)
    requires k < |listings| && UniqueIds(listings)
    ensures TotalBeds(WithoutId(listings, listings[k].id)) == TotalBeds(listings) - listings[k].totalBeds
    decreases |listings|
  {
    var id := listings[k].id;
    var rest := listings[1..];
    assert UniqueIds(rest);
    if k == 0 {
      assert forall l :: l in rest ==> l.id != id;
      DeleteAbsentIsNoOp(rest, id);
    } else {
      assert listings[0].id != id;
      assert rest[k - 1] == listings[k];
      DeleteLowersTotalBeds(rest, k - 1);
    }
  }

  class Page {
    var listings: seq<Listing>
    var searchTerm: string

    constructor()
      ensures listings == SampleListings() && searchTerm == ""
    {
      listings := SampleListings();
      searchTerm := "";
    }

    method SetSearchTerm(term: string)
      modifies this
      ensures searchTerm == term && listings == old(listings)
    {
      searchTerm := term;
    }

    /** `handleDeleteListing`: replaces the listings by those whose id differs. */
    method DeleteListing(id: string)
      modifies this
      ensures listings == WithoutId(old(listings), id)
      ensures searchTerm == old(searchTerm)
      ensures forall l :: l in listings <==> l in old(listings) && l.id != id
    {
      listings := WithoutId(listings, id);
      forall l ensures l in listings <==> l in old(listings) && l.id != id {
        DeleteMembership(old(listings), id, l);
      }
    }

    /** What the grid shows: always computed from the current listings. */
    function Shown(): (shown: seq<Listing>)
      reads this
      ensures shown == Visible(listings, searchTerm)
      ensures forall l :: l in shown ==> l in listings
    {
      Visible(listings, searchTerm)
    }

    /** The "Total Listings" figure. */
    function TotalListings(): (n: nat)
      reads this
      ensures n == |listings|
    {
      |listings|
    }

    /** The "Total Beds" figure. */
    function TotalBedsFigure(): (n: nat)
      reads this
      ensures n == TotalBeds(listings)
    {
      TotalBeds(listings)
    }
  }

  /** Deleting a listing from the page lowers the "Total Beds" figure by its beds. */
  method DeleteFromPage(page: Page, k: nat)
    requires k < |page.listings| && UniqueIds(page.listings)
    modifies page
    ensures page.TotalBedsFigure() == old(page.TotalBedsFigure()) - old(page.listings[k].totalBeds)
    ensures page.TotalListings() == old(page.TotalListings()) - 1
  {
    var id := page.listings[k].id;
    ghost var before := page.listings;
    DeleteLowersTotalBeds(before, k);
    DeleteCountsOne(before, k);
    page.DeleteListing(id);
  }

  /** With unique ids, deleting the listing at position `k` removes one listing. */
  lemma {:induction false} DeleteCountsOne(listings: seq<Listing>, k: nat)
    requires k < |listings| && UniqueIds(listings)
    ensures |WithoutId(listings, listings[k].id)| == |listings| - 1
    decreases |listings|
  {
    var id := listings[k].id;
    var rest := listings[1..];
    assert UniqueIds(rest);
    if k == 0 {
      assert forall l :: l in rest ==> l.id != id;
      DeleteAbsentIsNoOp(rest, id);
    } else {
      assert listings[0].id != id;
      assert rest[k - 1] == listings[k];
      DeleteCountsOne(rest, k - 1);
    }
  }
}
