/**
 * The "My Bookings" page: the status tab that narrows the booking list, the
 * duration text, the status label and the actions each status offers.
 */
module Bookings {
  import opened Wrappers
  import opened Seqs
  import opened JsText

  /** A booking as the sample list holds it; dates, image and rating are display only. */
  datatype Booking = Booking(
    id: string,
    hostelName: string,
    location: string,
    bookingType: string,
    duration: int,
    guests: nat,
    roomType: string,
    totalAmount: nat,
    status: string,
    amenities: seq<string>)

  /** The buttons a booking card offers. */
  datatype Action = ExtendStay | Cancel | Modify | Review | BookAgain

  function SampleBookings(): seq<Booking> {
    [ Booking("B001", "Sunshine Hostel", "Koramangala, Bangalore", "month", 3, 1,
              "Private Room", 24000, "active", ["WiFi", "AC", "Laundry", "Meals"]),
      Booking("B002", "Green Valley PG", "HSR Layout, Bangalore", "day", 7, 2,
              "Shared Room", 2100, "upcoming", ["WiFi", "AC", "Gym", "Meals"]),
      Booking("B003", "City Living Hostel", "Indiranagar, Bangalore", "hour", 8, 1,
              "Dormitory", 1200, "completed", ["WiFi", "AC", "Pool", "Meals"]),
      Booking("B004", "Budget Stay", "Whitefield, Bangalore", "day", 2, 1,
              "Private Room", 600, "upcoming", ["WiFi", "Laundry"]) ]
  }

  /** The tab keys in the order the tab bar shows them. */
  function TabKeys(): seq<string> {
    ["all", "active", "upcoming", "completed"]
  }

  /** `filteredBookings`: the whole list for "all", else the bookings with that status. */
  function FilteredBookings(bookings: seq<Booking>, filter: string): (shown: seq<Booking>)
    ensures filter == "all" ==> shown == bookings
    ensures forall b :: b in shown ==> b in bookings && (filter == "all" || b.status == filter)
  {
    if filter == "all" then bookings else Filter(bookings, (b: Booking) => b.status == filter)
  }

  /** `getDurationText`: the count, then the unit, plural when the count exceeds 1. */
  function DurationText(bookingType: string, duration: int): (text: string)
    ensures IsPrefix(IntText(duration), text)
    ensures bookingType !in {"hour", "day", "month"} ==> text == IntText(duration)
  {
    if bookingType in {"hour", "day", "month"} then
      IntText(duration) + " " + bookingType + (if duration > 1 then "s" else "")
    else
      IntText(duration)
  }

  /** `getStatusBadge`: the label of a booking status; an unknown status shows itself. */
  function StatusLabel(status: string): (text: string)
    ensures status !in {"active", "upcoming", "completed"} ==> text == status
    ensures status == "active" ==> text == "Active"
    ensures status == "upcoming" ==> text == "Upcoming"
    ensures status == "completed" ==> text == "Completed"
  {
    match status
    case "active" => "Active"
    case "upcoming" => "Upcoming"
    case "completed" => "Completed"
    case _ => status
  }

  /** `getActionButton`: the buttons shown for a status, left to right. */
  function Actions(status: string): (actions: seq<Action>)
    ensures status == "active" ==> actions == [ExtendStay, Cancel]
    ensures status == "upcoming" ==> actions == [Modify, Cancel]
    ensures status == "completed" ==> actions == [Review, BookAgain]
    ensures status !in {"active", "upcoming", "completed"} ==> actions == []
    ensures Cancel in actions <==> status == "active" || status == "upcoming"
  {
    match status
    case "active" => [ExtendStay, Cancel]
    case "upcoming" => [Modify, Cancel]
    case "completed" => [Review, BookAgain]
    case _ => []
  }

  /** The message shown when the tab has no bookings. */
  function EmptyMessage(filter: string): (msg: string)
    ensures filter == "all" ==> msg == "You haven't made any bookings yet."
    ensures filter != "all" ==> msg == "No " + filter + " bookings found."
    ensures filter != "all" ==> IsPrefix("No " + filter, msg)
  {
    if filter == "all" then "You haven't made any bookings yet."
    else "No " + filter + " bookings found."
  }

  // ---------------------------------------------------------------- properties

  /** The "all" tab shows the list unchanged. */
  lemma AllTabShowsEverything(bookings: seq<Booking>)
    ensures FilteredBookings(bookings, "all") == bookings
  {
  }

  /** Any other tab shows, in order, exactly the bookings whose status equals the tab key. */
  lemma StatusTabMembership(bookings: seq<Booking>, filter: string, b: Booking)
    requires filter != "all"
    ensures b in FilteredBookings(bookings, filter) <==> b in bookings && b.status == filter
    ensures IsSubsequence(FilteredBookings(bookings, filter), bookings)
  {
    FilterMembership(bookings, (x: Booking) => x.status == filter, b);
    FilterIsSubsequence(bookings, (x: Booking) => x.status == filter);
  }

  /**
   * The duration text of a known booking type ends in "s" exactly when the
   * count exceeds 1, and parseInt reads the count back from it.
   */
  lemma DurationTextPlural(bookingType: string, duration: nat)
    requires bookingType in {"hour", "day", "month"}
    ensures DurationText(bookingType, duration) ==
      NatText(duration) + " " + bookingType + (if duration > 1 then "s" else "")
    ensures var t := DurationText(bookingType, duration);
      |t| > 0 && (t[|t| - 1] == 's' <==> duration > 1)
    ensures ParseInt(DurationText(bookingType, duration)) == Some(duration)
  {
    var unit := " " + bookingType + (if duration > 1 then "s" else "");
    assert DurationText(bookingType, duration) == NatText(duration) + unit;
    ParseIntOfNatText(duration, unit);
  }

  /** An unknown booking type gives the bare count, which parseInt reads back. */
  lemma DurationTextUnknownType(bookingType: string, duration: nat)
    requires bookingType !in {"hour", "day", "month"}
    ensures ParseInt(DurationText(bookingType, duration)) == Some(duration)
    ensures forall i :: 0 <= i < |DurationText(bookingType, duration)| ==>
      IsDigit(DurationText(bookingType, duration)[i])
  {
    ParseIntOfNatText(duration, "");
    assert NatText(duration) + "" == NatText(duration);
  }

  /** Every tab but "all" filters by its own key, so the four tabs never overlap. */
  lemma TabsPartition(bookings: seq<Booking>, b: Booking)
    requires b in bookings && b.status in TabKeys()[1..]
    ensures b in FilteredBookings(bookings, b.status)
    ensures forall key :: key in TabKeys()[1..] && key != b.status ==> b !in FilteredBookings(bookings, key)
  {
    FilterMembership(bookings, (x: Booking) => x.status == b.status, b);
    forall key | key in TabKeys()[1..] && key != b.status
      ensures b !in FilteredBookings(bookings, key)
    {
      FilterMembership(bookings, (x: Booking) => x.status == key, b);
    }
  }

  class Page {
    var filter: string

    constructor()
      ensures filter == "all"
    {
      filter := "all";
    }

    /** A tab click sets the filter to the tab's key. */
    method SelectTab(key: string)
      modifies this
      ensures filter == key
    {
      filter := key;
    }

    function Shown(): (shown: seq<Booking>)
      reads this
      ensures filter == "all" ==> shown == SampleBookings()
      ensures shown == FilteredBookings(SampleBookings(), filter)
      ensures forall b :: b in shown ==> b in SampleBookings() && (filter == "all" || b.status == filter)
    {
      FilteredBookings(SampleBookings(), filter)
    }
  }
}
